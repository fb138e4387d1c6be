/**
 Finding the bearer token in the text of a response (src/http_app.c, src/app_bk.c): the library
 searches, extraction from one text, and the round trip.
 */
module TokenText {

  datatype Option<T> = None | Some(value: T)

  const QUOTE: char := '"'
  const MARKER: string := "\"token\":\""

  // ----- the C library searches -------------------------------------------------------------------

  predicate OccursAt(text: string, pattern: string, i: int) {
    0 <= i && i + |pattern| <= |text| && text[i..i + |pattern|] == pattern
  }

  /** strstr: the first place at or after `from` where `pattern` occurs. */
  function Find(text: string, pattern: string, from: nat): (r: Option<nat>)
    requires from <= |text|
    ensures r.Some? ==> from <= r.value && OccursAt(text, pattern, r.value)
    ensures forall i :: from <= i && (r.Some? ==> i < r.value) ==> !OccursAt(text, pattern, i)
    decreases |text| - from
  {
    if OccursAt(text, pattern, from) then Some(from)
    else if from == |text| then None
    else Find(text, pattern, from + 1)
  }

  /** strchr: the first place at or after `from` that holds `c`. */
  function FindChar(text: string, c: char, from: nat): (r: Option<nat>)
    requires from <= |text|
    ensures r.Some? ==> from <= r.value < |text| && text[r.value] == c
    ensures forall i :: from <= i < |text| && (r.Some? ==> i < r.value) ==> text[i] != c
    decreases |text| - from
  {
    if from == |text| then None
    else if text[from] == c then Some(from)
    else FindChar(text, c, from + 1)
  }

  /** The contents of a C string stored in `text`: everything before the first NUL. */
  function CString(text: string): (r: string)
    ensures r <= text && '\0' !in r
    ensures '\0' !in text ==> r == text
    ensures |r| < |text| ==> text[|r|] == '\0'
  {
    match FindChar(text, '\0', 0)
    case None => text
    case Some(n) => text[..n]
  }

  // ----- extraction from one text -------------------------------------------------------------------

  /** The text between the first marker and the next quote, if both are there. */
  function Extract(text: string): (r: Option<string>)
    ensures r.Some? ==> QUOTE !in r.value && |r.value| <= |text|
  {
    match Find(text, MARKER, 0)
    case None => None
    case Some(m) =>
      match FindChar(text, QUOTE, m + |MARKER|)
      case None => None
      case Some(e) => Some(text[m + |MARKER|..e])
  }

  /** What the extraction means, without saying how it is found: the first marker is at `m`, and the
      next quote after it ends the token. */
  predicate TokenAt(text: string, m: nat, t: string) {
    && OccursAt(text, MARKER, m)
    && (forall i :: 0 <= i < m ==> !OccursAt(text, MARKER, i))
    && QUOTE !in t
    && OccursAt(text, t + [QUOTE], m + |MARKER|)
  }

  lemma ExtractMeans(text: string, t: string)
    ensures Extract(text) == Some(t) <==> exists m: nat :: TokenAt(text, m, t)
  {
    if Extract(text) == Some(t) {
      var m := Find(text, MARKER, 0).value;
      var b := m + |MARKER|;
      var e := FindChar(text, QUOTE, b).value;
      assert text[b..e + 1] == t + [QUOTE];
      assert TokenAt(text, m, t);
    }
    if m: nat :| TokenAt(text, m, t) {
      TokenAtExtracts(text, m, t);
    }
  }

  lemma TokenAtExtracts(text: string, m: nat, t: string)
    requires TokenAt(text, m, t)
    ensures Find(text, MARKER, 0) == Some(m) && Extract(text) == Some(t)
  {
    QuoteEnds(text, m + |MARKER|, t);
  }

  lemma QuoteEnds(text: string, b: nat, t: string)
    requires QUOTE !in t && OccursAt(text, t + [QUOTE], b)
    ensures FindChar(text, QUOTE, b) == Some(b + |t|) && text[b..b + |t|] == t
  {
    var quoted := t + [QUOTE];
    assert forall i :: 0 <= i < |quoted| ==> text[b + i] == text[b..b + |quoted|][i] == quoted[i];
    assert forall i :: 0 <= i < |t| ==> quoted[i] == t[i] && quoted[i] in t;
    assert quoted[|t|] == QUOTE;
  }

  lemma TokenAtUnique(text: string, m: nat, t: string, u: string)
    requires TokenAt(text, m, t) && TokenAt(text, m, u)
    ensures t == u
  {
    TokenAtExtracts(text, m, t);
    TokenAtExtracts(text, m, u);
  }

  lemma ExtractedAt(text: string, t: string) returns (m: nat)
    requires Extract(text) == Some(t)
    ensures TokenAt(text, m, t)
  {
    ExtractMeans(text, t);
    m :| TokenAt(text, m, t);
  }

  // ----- tokens in a slice of a text ----------------------------------------------------------------

  lemma SliceOfSlice(text: string, a: nat, b: nat, i: nat, j: nat)
    requires a <= b <= |text| && i <= j <= b - a
    ensures text[a..b][i..j] == text[a + i..a + j]
  {
    assert forall k :: 0 <= k < j - i ==> text[a..b][i..j][k] == text[a + i..a + j][k];
  }

  /** An occurrence inside a slice is one in the text, and the other way round. */
  lemma SliceOccurrence(text: string, a: nat, b: nat, pattern: string, i: nat)
    requires a <= b <= |text| && i + |pattern| <= b - a
    ensures OccursAt(text[a..b], pattern, i) <==> OccursAt(text, pattern, a + i)
  {
    SliceOfSlice(text, a, b, i, i + |pattern|);
  }

  lemma NoMarkerBefore(text: string, a: nat, b: nat, m: nat)
    requires a <= m && m + |MARKER| <= b <= |text| && forall i :: 0 <= i < m ==> !OccursAt(text, MARKER, i)
    ensures forall i :: 0 <= i < m - a ==> !OccursAt(text[a..b], MARKER, i)
  {
    forall i | 0 <= i < m - a ensures !OccursAt(text[a..b], MARKER, i) {
      SliceOccurrence(text, a, b, MARKER, i);
    }
  }

  lemma TokenInSlice(text: string, a: nat, b: nat, m: nat, t: string)
    requires TokenAt(text, m, t) && a <= m && m + |MARKER| + |t| + 1 <= b <= |text|
    ensures TokenAt(text[a..b], m - a, t)
  {
    SliceOccurrence(text, a, b, MARKER, m - a);
    SliceOccurrence(text, a, b, t + [QUOTE], m - a + |MARKER|);
    NoMarkerBefore(text, a, b, m);
  }

  predicate OnlyMarkerAt(text: string, m: nat) {
    forall i :: 0 <= i < |text| && OccursAt(text, MARKER, i) ==> i == m
  }

  /** With one marker in the text, a token found in a slice is the token of the text. */
  lemma TokenFromSlice(text: string, a: nat, b: nat, m: nat, t: string, i: nat, u: string)
    requires TokenAt(text, m, t) && OnlyMarkerAt(text, m)
    requires a <= b <= |text| && TokenAt(text[a..b], i, u)
    ensures m == a + i && u == t && m + |MARKER| + |t| + 1 <= b
  {
    SliceOccurrence(text, a, b, MARKER, i);
    SliceOccurrence(text, a, b, u + [QUOTE], i + |MARKER|);
    assert m == a + i;
    assert TokenAt(text, m, u);
    TokenAtUnique(text, m, t, u);
  }

  lemma NoTokenMeans(text: string)
    ensures Extract(text).None? <==>
            forall m: nat :: OccursAt(text, MARKER, m) && (forall i :: 0 <= i < m ==> !OccursAt(text, MARKER, i))
              ==> QUOTE !in text[m + |MARKER|..]
  {
    if Extract(text).None? {
      forall m: nat | OccursAt(text, MARKER, m) && (forall i :: 0 <= i < m ==> !OccursAt(text, MARKER, i))
        ensures QUOTE !in text[m + |MARKER|..]
      {
        assert Find(text, MARKER, 0) == Some(m);
      }
    } else {
      var m := Find(text, MARKER, 0).value;
      var b := m + |MARKER|;
      var e := FindChar(text, QUOTE, b).value;
      assert text[b..][e - b] == QUOTE;
    }
  }

  // ----- the round trip ----------------------------------------------------------------------------

  /** A response text with the token `t` between `p` and `s`. */
  function Embed(p: string, t: string, s: string): string { p + MARKER + t + [QUOTE] + s }

  predicate Contains(text: string, pattern: string) {
    exists i :: 0 <= i <= |text| && OccursAt(text, pattern, i)
  }

  /** `p` ends with all of the marker but its last character, which is also its first. */
  predicate EndsWithMarkerHead(p: string) {
    |p| >= 8 && p[|p| - 8..] == MARKER[..8]
  }

  /** An occurrence that begins inside `p` and ends inside the marker after it overlaps the marker in
      a border, and the only border has length 1. */
  lemma OverlapIsBorder(p: string, rest: string, i: nat)
    requires i < |p| < i + |MARKER| && OccursAt(p + MARKER + rest, MARKER, i)
    ensures i == |p| - 8 && EndsWithMarkerHead(p)
  {
    var text := p + MARKER + rest;
    var k := |p| - i;
    assert forall j :: 0 <= j < |MARKER| ==> text[i + j] == text[i..i + |MARKER|][j] == MARKER[j];
    assert forall j :: 0 <= j < |MARKER| ==> text[|p| + j] == MARKER[j];
    assert text[i + k] == MARKER[0] == MARKER[k];
    assert k == 6 || k == 8;
    assert text[i + 7] == MARKER[7];
    assert p[i..] == MARKER[..8];
  }

  lemma HeadMakesOverlap(p: string, rest: string)
    requires EndsWithMarkerHead(p)
    ensures OccursAt(p + MARKER + rest, MARKER, |p| - 8)
  {
    var text, i := p + MARKER + rest, |p| - 8;
    assert forall j :: 0 <= j < 8 ==> text[i + j] == p[i..][j] == MARKER[..8][j];
    assert text[i + 8] == MARKER[0] == MARKER[8];
    assert text[i..i + 9] == MARKER;
  }

  lemma PrefixOccurrence(p: string, rest: string, pattern: string, i: nat)
    requires i + |pattern| <= |p|
    ensures OccursAt(p + rest, pattern, i) <==> OccursAt(p, pattern, i)
  {
    assert (p + rest)[i..i + |pattern|] == p[i..i + |pattern|];
  }

  /** The only marker that can begin inside a marker-free `p` is the overlapping one. */
  lemma EarlierMarkerOverlaps(p: string, rest: string, i: nat)
    requires !Contains(p, MARKER) && i < |p| && OccursAt(p + MARKER + rest, MARKER, i)
    ensures i == |p| - 8 && EndsWithMarkerHead(p)
  {
    assert p + MARKER + rest == p + (MARKER + rest);
    if i + |MARKER| > |p| {
      OverlapIsBorder(p, rest, i);
    } else {
      PrefixOccurrence(p, MARKER + rest, MARKER, i);
      assert false;
    }
  }

  /** The first marker of the embedding is the embedded one exactly if `p` neither contains a marker
      nor ends with the marker's first eight characters. */
  lemma FirstMarkerExactly(p: string, rest: string)
    ensures Find(p + MARKER + rest, MARKER, 0) == Some(|p|) <==>
            !Contains(p, MARKER) && !EndsWithMarkerHead(p)
  {
    var text := p + MARKER + rest;
    assert text == p + (MARKER + rest);
    assert OccursAt(text, MARKER, |p|);
    if Contains(p, MARKER) {
      var i :| 0 <= i <= |p| && OccursAt(p, MARKER, i);
      PrefixOccurrence(p, MARKER + rest, MARKER, i);
    } else if EndsWithMarkerHead(p) {
      HeadMakesOverlap(p, rest);
    } else {
      var first := Find(text, MARKER, 0).value;
      if first < |p| { EarlierMarkerOverlaps(p, rest, first); }
    }
  }

  lemma EmbedShape(p: string, t: string, s: string)
    ensures Embed(p, t, s) == p + MARKER + (t + [QUOTE] + s)
  {
  }

  lemma TokenFollows(p: string, t: string, s: string)
    ensures OccursAt(p + MARKER + (t + [QUOTE] + s), t + [QUOTE], |p| + |MARKER|)
  {
    var text, b := p + MARKER + (t + [QUOTE] + s), |p| + |MARKER|;
    assert text[b..b + |t| + 1] == t + [QUOTE];
  }

  /** Round trip: a quote-free token comes back from every such text. */
  lemma RoundTrip(p: string, t: string, s: string)
    requires QUOTE !in t && !Contains(p, MARKER) && !EndsWithMarkerHead(p)
    ensures Extract(Embed(p, t, s)) == Some(t)
  {
    var rest := t + [QUOTE] + s;
    EmbedShape(p, t, s);
    FirstMarkerExactly(p, rest);
    TokenFollows(p, t, s);
    assert TokenAt(p + MARKER + rest, |p|, t);
    TokenAtExtracts(p + MARKER + rest, |p|, t);
  }

  /** In particular from a JSON object with the one member. */
  lemma ObjectBody(t: string)
    requires QUOTE !in t
    ensures Extract("{\"token\":\"" + t + "\"}") == Some(t)
  {
    assert "{\"token\":\"" + t + "\"}" == Embed("{", t, "}");
    OneCharacterPrefix('{');
    RoundTrip("{", t, "}");
  }

  lemma OneCharacterPrefix(c: char)
    ensures !Contains([c], MARKER) && !EndsWithMarkerHead([c])
  {
  }

  /** The word of the marker and its quote follow the overlapping marker. */
  lemma WordFollows(p: string, rest: string)
    ensures OccursAt(p + MARKER + rest, "token" + [QUOTE], |p| + 1)
  {
    var text := p + MARKER + rest;
    assert forall j :: 0 <= j < |MARKER| ==> text[|p| + j] == MARKER[j];
    assert text[|p| + 1..|p| + 7] == "token" + [QUOTE];
  }

  lemma OverlapIsFirst(p: string, rest: string, i: nat)
    requires !Contains(p, MARKER) && EndsWithMarkerHead(p) && i < |p| - 8
    ensures !OccursAt(p + MARKER + rest, MARKER, i)
  {
    if OccursAt(p + MARKER + rest, MARKER, i) { EarlierMarkerOverlaps(p, rest, i); }
  }

  /** And the condition cannot be dropped: when `p` ends with the marker's head and has no marker of
      its own, the extraction returns the word of the marker itself, whatever the token. */
  lemma OverlapExtractsWord(p: string, t: string, s: string)
    requires !Contains(p, MARKER) && EndsWithMarkerHead(p)
    ensures Extract(Embed(p, t, s)) == Some("token")
  {
    var rest := t + [QUOTE] + s;
    EmbedShape(p, t, s);
    HeadMakesOverlap(p, rest);
    WordFollows(p, rest);
    forall i | 0 <= i < |p| - 8 ensures !OccursAt(p + MARKER + rest, MARKER, i) { OverlapIsFirst(p, rest, i); }
    assert TokenAt(p + MARKER + rest, |p| - 8, "token");
    TokenAtExtracts(p + MARKER + rest, |p| - 8, "token");
  }
}
