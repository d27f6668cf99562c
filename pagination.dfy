/** Cursor-based pagination of a listing: a page of at most `size` items
    starting at the position the token names, and the token of the next
    page when items remain. */
module Pagination {
  import opened LaunchTemplateTypes

  datatype Page<T> = Page(items: seq<T>, nextToken: Option<nat>)

  function Min(a: int, b: int): int {
    if a <= b then a else b
  }

  /** The page of `xs` that starts at `token`. */
  function GetPage<T>(xs: seq<T>, token: nat, size: nat): (p: Page<T>)
    requires size > 0
    ensures |p.items| <= size
    ensures p.items == xs[Min(token, |xs|)..Min(token + size, |xs|)]
    ensures p.nextToken.Some? <==> token + size < |xs|
    ensures p.nextToken.Some? ==> token < p.nextToken.value < |xs| && |p.items| == size
  {
    var start, end := Min(token, |xs|), Min(token + size, |xs|);
    Page(xs[start..end], if end < |xs| then Some(end) else None)
  }

  /** Everything a client collects by following next tokens from `token`. */
  function FollowTokens<T>(xs: seq<T>, token: nat, size: nat): (r: seq<T>)
    requires size > 0
    ensures |r| == |xs| - Min(token, |xs|)
    decreases |xs| - token
  {
    var p := GetPage(xs, token, size);
    if p.nextToken.Some? then p.items + FollowTokens(xs, p.nextToken.value, size)
    else p.items
  }

  /** One step of following tokens: the page at `token`, then whatever
      its next token leads to. */
  lemma FollowTokensStep<T>(xs: seq<T>, token: nat, size: nat)
    requires size > 0
    ensures var p := GetPage(xs, token, size);
      FollowTokens(xs, token, size)
      == p.items + (if p.nextToken.Some? then FollowTokens(xs, p.nextToken.value, size) else [])
  {
  }

  lemma AppendAssoc<T>(a: seq<T>, b: seq<T>, c: seq<T>)
    ensures a + (b + c) == (a + b) + c
  {
  }

  /** Following tokens from any position collects the rest of the listing,
      in order, each item exactly once. */
  lemma {:induction false} FollowTokensCollectsRest<T>(xs: seq<T>, token: nat, size: nat)
    requires size > 0
    ensures FollowTokens(xs, token, size) == xs[Min(token, |xs|)..]
    decreases |xs| - token
  {
    var p := GetPage(xs, token, size);
    if p.nextToken.Some? {
      FollowTokensCollectsRest(xs, p.nextToken.value, size);
      assert xs[token..] == xs[token..token + size] + xs[token + size..];
    }
  }

  /** Starting without a token yields the whole listing, for every positive page size. */
  lemma FollowTokensCollectsAll<T>(xs: seq<T>, size: nat)
    requires size > 0
    ensures FollowTokens(xs, 0, size) == xs
  {
    FollowTokensCollectsRest(xs, 0, size);
  }
}
