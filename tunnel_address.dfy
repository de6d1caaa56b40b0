/**
  Extraction of the public tunnel address from the tunnel client's output
  (server/server.py:78-87).

  Each output line is stripped; a line that is non-empty and contains "tcp://" is searched
  for the leftmost match of the regular expression  tcp://([a-z0-9.-]+:\d+)  and the group
  (host:port) is reported. Here the regular-expression search is a hand-written matcher,
  proved against a declarative statement of what the leftmost, greedy match is.
*/
module TunnelAddress {
  import opened Wrappers

  const SCHEME: string := "tcp://"

  /** The character class [a-z0-9.-]. */
  predicate IsHostChar(c: char) {
    ('a' <= c <= 'z') || ('0' <= c <= '9') || c == '.' || c == '-'
  }

  /** \d, restricted to the ASCII digits. */
  predicate IsDigit(c: char) {
    '0' <= c <= '9'
  }

  /** The characters Python's str.strip() removes (those for which str.isspace() holds). */
  predicate IsSpace(c: char) {
    || ('\t' <= c <= '\r') || ('\U{1c}' <= c <= ' ') || c == '\U{85}' || c == '\U{a0}'
    || c == '\U{1680}' || ('\U{2000}' <= c <= '\U{200a}') || c == '\U{2028}' || c == '\U{2029}'
    || c == '\U{202f}' || c == '\U{205f}' || c == '\U{3000}'
  }

  predicate OccursAt(s: string, pat: string, i: int) {
    0 <= i && i + |pat| <= |s| && s[i .. i + |pat|] == pat
  }

  /** Python's `pat in s`. */
  predicate Contains(s: string, pat: string) {
    exists i | 0 <= i <= |s| - |pat| :: OccursAt(s, pat, i)
  }

  // ----- the declarative reading of the regular expression -----

  /** s[p..q] is "tcp://", a non-empty run of [a-z0-9.-], ':' at index c, and a non-empty run of digits. */
  ghost predicate MatchSplit(s: string, p: int, c: int, q: int) {
    && 0 <= p && p + |SCHEME| < c && c + 1 < q <= |s|
    && s[p .. p + |SCHEME|] == SCHEME
    && (forall k :: p + |SCHEME| <= k < c ==> IsHostChar(s[k]))
    && s[c] == ':'
    && (forall k :: c < k < q ==> IsDigit(s[k]))
  }

  /** The regular expression matches s[p..q]. */
  ghost predicate MatchesAt(s: string, p: int, q: int) {
    0 <= p && p + |SCHEME| < q <= |s| && exists c :: MatchSplit(s, p, c, q)
  }

  /** The match re.search reports: the leftmost start, and at that start the greedy (longest) end. */
  ghost predicate LeftmostLongest(s: string, p: int, q: int) {
    && MatchesAt(s, p, q)
    && (forall q' :: MatchesAt(s, p, q') ==> q' <= q)
    && (forall p', q' :: 0 <= p' < p ==> !MatchesAt(s, p', q'))
  }

  /** r is what `m.group(1) if (m := re.search(...)) else None` yields on s. */
  ghost predicate IsSearchResult(s: string, r: Option<string>) {
    match r
    case None => forall p, q :: !MatchesAt(s, p, q)
    case Some(a) => exists p, q :: LeftmostLongest(s, p, q) && a == s[p + |SCHEME| .. q]
  }

  /** The group's shape: host characters, then ':' at index c, then digits, both runs non-empty. */
  ghost predicate AddressSplit(a: string, c: int) {
    && 0 < c < |a| - 1
    && (forall k :: 0 <= k < c ==> IsHostChar(a[k]))
    && a[c] == ':'
    && (forall k :: c < k < |a| ==> IsDigit(a[k]))
  }

  ghost predicate IsAddress(a: string) {
    exists c :: AddressSplit(a, c)
  }

  // ----- the matcher -----

  /** The end of the run of characters in a class starting at index i. */
  function RunEnd(s: string, i: nat, inClass: char -> bool): (j: nat)
    requires i <= |s|
    ensures i <= j <= |s|
    ensures forall k :: i <= k < j ==> inClass(s[k])
    ensures j < |s| ==> !inClass(s[j])
    decreases |s| - i
  {
    if i < |s| && inClass(s[i]) then RunEnd(s, i + 1, inClass) else i
  }

  /** The end of the greedy match of the expression at index p, if it matches there. */
  function MatchAt(s: string, p: nat): (r: Option<nat>)
    requires p <= |s|
    ensures r.Some? ==> p + |SCHEME| + 3 <= r.value <= |s|
  {
    var h := p + |SCHEME|;
    if h <= |s| && s[p .. h] == SCHEME then
      var c := RunEnd(s, h, IsHostChar);
      if c > h && c + 1 < |s| && s[c] == ':' && IsDigit(s[c + 1]) then
        Some(RunEnd(s, c + 1, IsDigit))
      else None
    else None
  }

  datatype Span = Span(start: nat, end: nat)

  /** The first match starting at index p or later. */
  function SearchFrom(s: string, p: nat): (r: Option<Span>)
    requires p <= |s|
    ensures r.Some? ==> p <= r.value.start && r.value.start + |SCHEME| + 3 <= r.value.end <= |s|
    decreases |s| - p
  {
    match MatchAt(s, p)
    case Some(q) => Some(Span(p, q))
    case None => if p < |s| then SearchFrom(s, p + 1) else None
  }

  /** `re.search(r'tcp://([a-z0-9\.-]+:\d+)', s)` followed by `m.group(1)`. */
  function Search(s: string): (r: Option<string>)
    ensures r.Some? ==> 3 <= |r.value| <= |s| - |SCHEME|
  {
    match SearchFrom(s, 0)
    case Some(sp) => Some(s[sp.start + |SCHEME| .. sp.end])
    case None => None
  }

  /** Python's str.strip(). */
  function Strip(s: string): (r: string)
    ensures |r| <= |s|
    ensures |r| > 0 ==> !IsSpace(r[0]) && !IsSpace(r[|r| - 1])
    ensures exists a, b :: (0 <= a <= b <= |s| && r == s[a..b]
      && forall k :: 0 <= k < a || b <= k < |s| ==> IsSpace(s[k]))
  {
    var a := RunEnd(s, 0, IsSpace);
    s[a .. TrailingStart(s, a, |s|)]
  }

  /** The start of the run of white space that ends at index j, not going below lo. */
  function TrailingStart(s: string, lo: nat, j: nat): (b: nat)
    requires lo <= j <= |s|
    ensures lo <= b <= j
    ensures forall k :: b <= k < j ==> IsSpace(s[k])
    ensures b > lo ==> !IsSpace(s[b - 1])
    decreases j
  {
    if j > lo && IsSpace(s[j - 1]) then TrailingStart(s, lo, j - 1) else j
  }

  /** One iteration of the loop over the tunnel client's output. */
  function AddressOf(line: string): (r: Option<string>)
    ensures r.Some? ==> 3 <= |r.value| <= |line| - |SCHEME|
  {
    var t := Strip(line);
    if |t| > 0 && Contains(t, SCHEME) then Search(t) else None
  }

  /** The addresses reported for a sequence of output lines, in order. */
  function AddressesIn(lines: seq<string>): (r: seq<string>)
    ensures |r| <= |lines|
    decreases |lines|
  {
    if lines == [] then []
    else
      AddressesIn(lines[..|lines| - 1])
        + match AddressOf(lines[|lines| - 1]) case Some(a) => [a] case None => []
  }

  /** The loop at server.py:78-87: every address found, in the order of the lines. */
  method ScanTunnelOutput(lines: seq<string>) returns (addrs: seq<string>)
    ensures addrs == AddressesIn(lines)
    ensures |addrs| <= |lines|
    ensures forall k :: 0 <= k < |addrs| ==> IsAddress(addrs[k])
  {
    addrs := [];
    var i := 0;
    while i < |lines|
      invariant 0 <= i <= |lines|
      invariant addrs == AddressesIn(lines[..i])
      invariant |addrs| <= i
      invariant forall k :: 0 <= k < |addrs| ==> IsAddress(addrs[k])
    {
      var found := AddressOf(lines[i]);
      if found.Some? {
        AddressShape(lines[i]);
        addrs := addrs + [found.value];
      }
      i := i + 1;
      assert lines[..i][..i - 1] == lines[..i - 1];
    }
    assert lines[..i] == lines;
  }

  // ----- correctness of the matcher -----

  /** A run of class characters followed by a non-member (or the end) is exactly what RunEnd finds. */
  lemma {:induction false} RunEndIsFirst(s: string, i: nat, j: nat, inClass: char -> bool)
    requires i <= j <= |s|
    requires forall k :: i <= k < j ==> inClass(s[k])
    requires j < |s| ==> !inClass(s[j])
    ensures RunEnd(s, i, inClass) == j
    decreases j - i
  {
    if i < j {
      RunEndIsFirst(s, i + 1, j, inClass);
    }
  }

  /** RunEnd reaches past every run of class characters that starts at i. */
  lemma {:induction false} RunEndIsLongest(s: string, i: nat, j: nat, inClass: char -> bool)
    requires i <= j <= |s|
    requires forall k :: i <= k < j ==> inClass(s[k])
    ensures j <= RunEnd(s, i, inClass)
    decreases j - i
  {
    if i < j {
      RunEndIsLongest(s, i + 1, j, inClass);
    }
  }

  /** MatchAt finds a match at p exactly when one exists, and then the longest. */
  lemma MatchAtCorrect(s: string, p: nat)
    requires p <= |s|
    ensures MatchAt(s, p).Some? ==> MatchesAt(s, p, MatchAt(s, p).value)
    ensures forall q :: MatchesAt(s, p, q) ==> MatchAt(s, p).Some? && q <= MatchAt(s, p).value
  {
    var h := p + |SCHEME|;
    if MatchAt(s, p).Some? {
      var c := RunEnd(s, h, IsHostChar);
      assert MatchSplit(s, p, c, MatchAt(s, p).value);
    }
    forall q | MatchesAt(s, p, q)
      ensures MatchAt(s, p).Some? && q <= MatchAt(s, p).value
    {
      var c :| MatchSplit(s, p, c, q);
      RunEndIsFirst(s, h, c, IsHostChar);
      assert IsDigit(s[c + 1]);
      RunEndIsLongest(s, c + 1, q, IsDigit);
    }
  }

  /** SearchFrom finds the leftmost match at or after p, longest at its start, or reports none. */
  lemma {:induction false} SearchFromCorrect(s: string, p: nat)
    requires p <= |s|
    ensures SearchFrom(s, p).Some? ==>
      var sp := SearchFrom(s, p).value;
      && MatchesAt(s, sp.start, sp.end)
      && (forall q :: MatchesAt(s, sp.start, q) ==> q <= sp.end)
      && (forall p', q :: p <= p' < sp.start ==> !MatchesAt(s, p', q))
    ensures SearchFrom(s, p).None? ==> forall p', q :: p <= p' ==> !MatchesAt(s, p', q)
    decreases |s| - p
  {
    MatchAtCorrect(s, p);
    if MatchAt(s, p).None? && p < |s| {
      SearchFromCorrect(s, p + 1);
    }
  }

  /** The matcher returns exactly what the regular-expression search specifies. */
  lemma SearchMeetsSpec(s: string)
    ensures IsSearchResult(s, Search(s))
  {
    SearchFromCorrect(s, 0);
    if SearchFrom(s, 0).Some? {
      var sp := SearchFrom(s, 0).value;
      assert LeftmostLongest(s, sp.start, sp.end);
    }
  }

  /** The specification determines the result: there is only one leftmost, longest match. */
  lemma SearchResultUnique(s: string, r1: Option<string>, r2: Option<string>)
    requires IsSearchResult(s, r1) && IsSearchResult(s, r2)
    ensures r1 == r2
  {
    if r1.Some? && r2.Some? {
      var p1, q1 :| LeftmostLongest(s, p1, q1) && r1.value == s[p1 + |SCHEME| .. q1];
      var p2, q2 :| LeftmostLongest(s, p2, q2) && r2.value == s[p2 + |SCHEME| .. q2];
      assert p1 == p2;
      assert q1 == q2;
    }
  }

  /** A reported address is host characters, ':', then digits, and the digit run is not cut short. */
  lemma SearchShape(s: string)
    requires Search(s).Some?
    ensures IsAddress(Search(s).value)
    ensures Contains(s, SCHEME)
  {
    SearchFromCorrect(s, 0);
    var sp := SearchFrom(s, 0).value;
    var c :| MatchSplit(s, sp.start, c, sp.end);
    var a := Search(s).value;
    assert AddressSplit(a, c - sp.start - |SCHEME|);
    assert OccursAt(s, SCHEME, sp.start);
  }

  // ----- the strip and the "tcp://" test never change the outcome -----

  lemma SliceOfSlice(s: string, a: nat, b: nat, i: nat, j: nat)
    requires a <= b <= |s| && i <= j <= b - a
    ensures s[a..b][i..j] == s[a + i .. a + j]
  {
    assert forall k :: 0 <= k < j - i ==> s[a..b][i..j][k] == s[a + i .. a + j][k];
  }

  /** A match in a line lies inside its stripped part, at the same place. */
  lemma MatchesInStripped(s: string, a: nat, b: nat, p: int, q: int)
    requires a <= b <= |s|
    requires forall k :: 0 <= k < a ==> IsSpace(s[k])
    requires forall k :: b <= k < |s| ==> IsSpace(s[k])
    ensures MatchesAt(s, p, q) <==> a <= p && q <= b && MatchesAt(s[a..b], p - a, q - a)
  {
    var t := s[a..b];
    if MatchesAt(s, p, q) {
      var c :| MatchSplit(s, p, c, q);
      assert s[p] == SCHEME[0];
      assert IsDigit(s[q - 1]);
      SliceOfSlice(s, a, b, p - a, p - a + |SCHEME|);
      assert MatchSplit(t, p - a, c - a, q - a);
    }
    if a <= p && q <= b && MatchesAt(t, p - a, q - a) {
      var c :| MatchSplit(t, p - a, c, q - a);
      SliceOfSlice(s, a, b, p - a, p - a + |SCHEME|);
      assert MatchSplit(s, p, c + a, q);
    }
  }

  /** A search result of the stripped part of a line is also the search result of the whole line. */
  lemma SearchResultOfStripped(s: string, a: nat, b: nat, r: Option<string>)
    requires a <= b <= |s|
    requires forall k :: 0 <= k < a ==> IsSpace(s[k])
    requires forall k :: b <= k < |s| ==> IsSpace(s[k])
    requires IsSearchResult(s[a..b], r)
    ensures IsSearchResult(s, r)
  {
    var t := s[a..b];
    forall p: int, q: int
      ensures MatchesAt(s, p, q) <==> a <= p && q <= b && MatchesAt(t, p - a, q - a)
    {
      MatchesInStripped(s, a, b, p, q);
    }
    if r.Some? {
      var p, q :| LeftmostLongest(t, p, q) && r.value == t[p + |SCHEME| .. q];
      var start := p + a;
      assert MatchesAt(s, start, q + a);
      forall q' | MatchesAt(s, start, q')
        ensures q' <= q + a
      {
        assert MatchesAt(t, p, q' - a);
      }
      forall p', q' | 0 <= p' < p + a
        ensures !MatchesAt(s, p', q')
      {
        if a <= p' {
          assert !MatchesAt(t, p' - a, q' - a);
        }
      }
      assert LeftmostLongest(s, p + a, q + a);
      SliceOfSlice(s, a, b, p + |SCHEME|, q);
    }
  }

  /** Stripping white space from both ends does not change what the search finds. */
  lemma StripKeepsSearch(s: string)
    ensures Search(Strip(s)) == Search(s)
  {
    var a := RunEnd(s, 0, IsSpace);
    var b := TrailingStart(s, a, |s|);
    SearchMeetsSpec(Strip(s));
    SearchMeetsSpec(s);
    SearchResultOfStripped(s, a, b, Search(Strip(s)));
    SearchResultUnique(s, Search(Strip(s)), Search(s));
  }

  /** Each line's outcome is just the search on the raw line: lines without "tcp://" are skipped
      because the expression cannot match there, and the strip changes nothing. */
  lemma AddressOfIsSearch(line: string)
    ensures AddressOf(line) == Search(line)
  {
    var t := Strip(line);
    if Search(t).Some? {
      SearchShape(t);
    }
    StripKeepsSearch(line);
  }

  /** A line that does not contain "tcp://" yields no address. */
  lemma NoSchemeNoAddress(line: string)
    requires !Contains(line, SCHEME)
    ensures AddressOf(line) == None
  {
    AddressOfIsSearch(line);
    if Search(line).Some? {
      SearchShape(line);
    }
  }

  /** A reported address is a non-empty run of [a-z0-9.-], ':', and one or more digits; it is the
      group of the leftmost match in the line. */
  lemma AddressShape(line: string)
    requires AddressOf(line).Some?
    ensures IsAddress(AddressOf(line).value)
    ensures IsSearchResult(line, AddressOf(line))
  {
    AddressOfIsSearch(line);
    SearchShape(line);
    SearchMeetsSpec(line);
  }
}
