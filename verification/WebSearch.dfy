/** Filtering, capping and truncating search results (src/tools/web_search.py). */
module WebSearch {
  import opened Prelude

  const THRESHOLD := 0.7
  const MAX_RESULTS := 5
  const CHAR_BUDGET := 2000 * 4

  /** A raw result; each field may be missing. */
  datatype Hit = Hit(content: Option<string>, url: Option<string>, score: Option<real>)

  datatype Item = Item(content: string, url: string, score: real)

  function Score(h: Hit): real {
    if h.score.Some? then h.score.value else 0.0
  }

  function AsItem(h: Hit): Item {
    Item(if h.content.Some? then h.content.value else "", if h.url.Some? then h.url.value else "", Score(h))
  }

  /** The results at or above the threshold, in order. */
  function Relevant(hs: seq<Hit>): (items: seq<Item>)
    ensures forall k :: 0 <= k < |items| ==> items[k].score >= THRESHOLD
  {
    if hs == [] then []
    else (if Score(hs[0]) >= THRESHOLD then [AsItem(hs[0])] else []) + Relevant(hs[1..])
  }

  function Capped(hs: seq<Hit>): (items: seq<Item>)
    ensures |items| <= MAX_RESULTS
  {
    if |Relevant(hs)| <= MAX_RESULTS then Relevant(hs) else Relevant(hs)[..MAX_RESULTS]
  }

  /** The concatenated contents. */
  function Text(items: seq<Item>): string {
    if items == [] then "" else items[0].content + Text(items[1..])
  }

  /** The first n characters, or all of them. */
  function Take(s: string, n: nat): string {
    if |s| <= n then s else s[..n]
  }

  /** The items kept under a budget of characters: whole ones, then at most one cut short. */
  function Kept(items: seq<Item>, budget: nat): seq<Item>
    decreases |items|
  {
    if items == [] || budget == 0 then []
    else
      var n := |items[0].content|;
      [items[0].(content := Take(items[0].content, budget))] + Kept(items[1..], if n <= budget then budget - n else 0)
  }

  /** The kept text is exactly the first characters of the whole text. */
  lemma {:induction false} KeptText(items: seq<Item>, budget: nat)
    ensures Text(Kept(items, budget)) == Take(Text(items), budget)
    decreases |items|
  {
    if items != [] && budget > 0 {
      var content := items[0].content;
      var left := if |content| <= budget then budget - |content| else 0;
      KeptText(items[1..], left);
      var kept := Kept(items, budget);
      assert kept[1..] == Kept(items[1..], left);
      assert Text(kept) == Take(content, budget) + Take(Text(items[1..]), left);
    }
  }

  /**
    Kept items keep their place, address and score; only the last may be shortened, and items are
    dropped only when the budget is spent.
  */
  lemma {:induction false} KeptShape(items: seq<Item>, budget: nat)
    ensures var kept := Kept(items, budget);
      && |kept| <= |items|
      && (forall k :: 0 <= k < |kept|
            ==> kept[k].url == items[k].url && kept[k].score == items[k].score && kept[k].content <= items[k].content)
      && (forall k :: 0 <= k < |kept| - 1 ==> kept[k] == items[k])
      && (|kept| < |items| ==> |Text(kept)| == budget)
    decreases |items|
  {
    if items != [] && budget > 0 {
      var content := items[0].content;
      var left := if |content| <= budget then budget - |content| else 0;
      KeptShape(items[1..], left);
      var kept := Kept(items, budget);
      assert kept[1..] == Kept(items[1..], left);
    }
  }

  /** The kept items of a result list: at most five, relevant, and the first 8000 characters of their text. */
  lemma KeptOfResults(results: seq<Hit>)
    ensures var output := Kept(Capped(results), 8000);
      && |output| <= 5 && (forall k :: 0 <= k < |output| ==> output[k].score >= 0.7)
      && Text(output) == Take(Text(Capped(results)), 8000)
  {
    KeptText(Capped(results), CHAR_BUDGET);
    KeptShape(Capped(results), CHAR_BUDGET);
  }

  /** One turn of the loop, against the recursive description. */
  lemma KeptStep(items: seq<Item>, i: nat, budget: nat)
    requires i < |items|
    ensures Kept(items[i..], budget) ==
              if budget == 0 then []
              else [items[i].(content := Take(items[i].content, budget))]
                   + Kept(items[i + 1..], if |items[i].content| <= budget then budget - |items[i].content| else 0)
  {
    assert items[i..][0] == items[i] && items[i..][1..] == items[i + 1..];
  }

  /**
    At most five items, in input order, all at or above the threshold; their text is exactly the
    first 8000 characters of the capped items' text.
  */
  method FilterAndTruncate(results: seq<Hit>) returns (output: seq<Item>)
    ensures output == Kept(Capped(results), 8000)
    ensures |output| <= 5 && forall k :: 0 <= k < |output| ==> output[k].score >= 0.7
    ensures Text(output) == Take(Text(Capped(results)), 8000)
  {
    output := Truncate(Capped(results));
    KeptOfResults(results);
  }

  method Truncate(capped: seq<Item>) returns (output: seq<Item>)
    ensures output == Kept(capped, CHAR_BUDGET)
  {
    output := [];
    var used := 0;
    assert capped[0..] == capped;
    for i := 0 to |capped|
      invariant 0 <= used <= CHAR_BUDGET
      invariant output + Kept(capped[i..], CHAR_BUDGET - used) == Kept(capped, CHAR_BUDGET)
    {
      KeptStep(capped, i, CHAR_BUDGET - used);
      var content := capped[i].content;
      var remaining := CHAR_BUDGET - used;
      if remaining <= 0 {
        return;
      }
      if |content| > remaining {
        content := content[..remaining];
      }
      output := output + [Item(content, capped[i].url, capped[i].score)];
      used := used + |content|;
    }
  }
}
