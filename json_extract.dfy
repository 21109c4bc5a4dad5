/** The extraction step every response parser starts with:
    `text.match(/\[\s*\{.*\}\s*\]/s)`. With the `s` flag `.` matches any
    character, so the greedy `.*` makes the match run from the leftmost
    `[`-whitespace-`{` to the LAST `}`-whitespace-`]` after it. */
module JsonExtract {
  import opened Wrappers
  import opened Strings

  /** `\[\s*\{` matches at `p`. */
  predicate OpensAt(s: string, p: nat) {
    p < |s| && s[p] == '[' && SkipSpace(s, p + 1) < |s| && s[SkipSpace(s, p + 1)] == '{'
  }

  /** `\}\s*\]` matches at `q`. */
  predicate ClosesAt(s: string, q: nat) {
    q < |s| && s[q] == '}' && SkipSpace(s, q + 1) < |s| && s[SkipSpace(s, q + 1)] == ']'
  }

  /** The whole pattern matches from `p`, with its closing brace at `q`. */
  predicate MatchesAt(s: string, p: nat, q: nat) {
    OpensAt(s, p) && SkipSpace(s, p + 1) < q && ClosesAt(s, q)
  }

  /** The last closing position below `n`. */
  function LastClose(s: string, n: nat): (r: Option<nat>)
    requires n <= |s|
    ensures r.Some? ==> r.value < n && ClosesAt(s, r.value)
    ensures r.Some? ==> forall q: nat :: r.value < q < n ==> !ClosesAt(s, q)
    ensures r.None? ==> forall q: nat :: q < n ==> !ClosesAt(s, q)
  {
    if n == 0 then None
    else if ClosesAt(s, n - 1) then Some(n - 1)
    else LastClose(s, n - 1)
  }

  /** `[` at `p` opens, and its `{` comes before position `q`. */
  predicate OpensBefore(s: string, p: nat, q: nat) {
    OpensAt(s, p) && SkipSpace(s, p + 1) < q
  }

  /** The leftmost opening position at or after `p` whose `{` is before `q`. */
  function FirstOpen(s: string, p: nat, q: nat): (r: Option<nat>)
    requires p <= |s|
    ensures r.Some? ==> p <= r.value < |s| && OpensBefore(s, r.value, q)
    ensures r.Some? ==> forall k: nat :: p <= k < r.value ==> !OpensBefore(s, k, q)
    ensures r.None? ==> forall k: nat :: p <= k ==> !OpensBefore(s, k, q)
    decreases |s| - p
  {
    if p == |s| then None
    else if OpensBefore(s, p, q) then Some(p)
    else FirstOpen(s, p + 1, q)
  }

  /** Where the regular expression matches: the start `p` and the closing
      brace `q`; the match is `s[p..SkipSpace(s, q + 1) + 1]`. The search
      takes the leftmost start, and from it the greedy `.*` the last brace. */
  function MatchSpan(s: string): (r: Option<(nat, nat)>)
    ensures r.None? <==> forall p: nat, q: nat :: !MatchesAt(s, p, q)
    ensures r.Some? ==> MatchesAt(s, r.value.0, r.value.1)
    ensures r.Some? ==> forall p: nat, q: nat :: p < r.value.0 ==> !MatchesAt(s, p, q)
    ensures r.Some? ==> forall q: nat :: r.value.1 < q ==> !MatchesAt(s, r.value.0, q)
  {
    match LastClose(s, |s|)
    case None => None
    case Some(q) =>
      MatchesWithin(s, q);
      match FirstOpen(s, 0, q)
      case None => None
      case Some(p) => assert MatchesAt(s, p, q); Some((p, q))
  }

  /** Every match closes at or before the last closing position `q`, so its
      start opens before `q`. */
  lemma MatchesWithin(s: string, q: nat)
    requires LastClose(s, |s|) == Some(q)
    ensures forall p: nat, q': nat :: MatchesAt(s, p, q') ==> q' <= q && OpensBefore(s, p, q)
  {
    forall p: nat, q': nat | MatchesAt(s, p, q')
      ensures q' <= q && OpensBefore(s, p, q)
    {
      assert ClosesAt(s, q') && q' < |s|;
    }
  }

  /** The matched text, or `None` when the response holds no JSON array of
      objects ("No valid JSON array found in response"). */
  function Extract(s: string): (r: Option<string>)
    ensures r.None? <==> forall p: nat, q: nat :: !MatchesAt(s, p, q)
    ensures r.Some? ==> |r.value| >= 4 && r.value[0] == '[' && r.value[|r.value| - 1] == ']'
  {
    match MatchSpan(s)
    case None => None
    case Some((p, q)) => Some(MatchText(s, p, q))
  }

  /** The text a match from `p` closing at `q` covers. */
  function MatchText(s: string, p: nat, q: nat): (m: string)
    requires MatchesAt(s, p, q)
    ensures |m| >= 4 && m[0] == '[' && m[|m| - 1] == ']'
  {
    var e := SkipSpace(s, q + 1);
    assert p < SkipSpace(s, p + 1) < q < e < |s|;
    s[p..e + 1]
  }

  /** The extraction followed by `JSON.parse(...)` of an array; `parse` is
      the abstract parser (`None` when the text is not a JSON array of
      records). Either failure sends the caller to its fallback. */
  function ParseArray<X>(text: string, parse: string -> Option<seq<X>>): (r: Option<seq<X>>)
    ensures Extract(text).None? ==> r.None?
    ensures Extract(text).Some? ==> r == parse(Extract(text).value)
  {
    match Extract(text)
    case None => None
    case Some(m) => parse(m)
  }
}
