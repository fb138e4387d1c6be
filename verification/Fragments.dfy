/** Token extraction when the body arrives in fragments: the callback runs once for each fragment. */
module Fragments {
  import opened Histories
  import opened TokenText

  /** The complete token that a fragment holds by itself. The callback copies it as a C string. */
  function Held(fragment: string): Option<string> { Extract(CString(fragment)) }

  /** What one call of the response callback leaves as the token. */
  function OnFragment(token: string, fragment: string): string {
    match Held(fragment)
    case None => token
    case Some(t) => t
  }

  function Fold(f: (string, string) -> string, token: string, fragments: seq<string>): string {
    if fragments == [] then token
    else var n := |fragments| - 1; f(Fold(f, token, fragments[..n]), fragments[n])
  }

  /** What the calls for all fragments of a body, in order, leave. */
  function OnFragments(token: string, fragments: seq<string>): string { Fold(OnFragment, token, fragments) }

  function Concat(fragments: seq<string>): string {
    if fragments == [] then [] else var n := |fragments| - 1; Concat(fragments[..n]) + fragments[n]
  }

  /** Where fragment `k` begins in the whole body. */
  function Offset(fragments: seq<string>, k: nat): nat
    requires k <= |fragments|
  {
    |Concat(fragments[..k])|
  }

  predicate NulFree(fragments: seq<string>) { forall k :: 0 <= k < |fragments| ==> '\0' !in fragments[k] }

  lemma {:induction false} FragmentInWhole(fragments: seq<string>, k: nat)
    requires k < |fragments|
    ensures Offset(fragments, k + 1) == Offset(fragments, k) + |fragments[k]| <= |Concat(fragments)|
    ensures Concat(fragments)[Offset(fragments, k)..Offset(fragments, k + 1)] == fragments[k]
  {
    var n := |fragments| - 1;
    var init := fragments[..n];
    assert fragments[..k + 1][..k] == fragments[..k];
    if k == n {
      assert fragments[..k + 1] == fragments;
    } else {
      FragmentInWhole(init, k);
      assert init[..k] == fragments[..k] && init[..k + 1] == fragments[..k + 1];
    }
  }

  lemma {:induction false} OffsetsOrdered(fragments: seq<string>, j: nat, k: nat)
    requires j <= k <= |fragments|
    ensures Offset(fragments, j) <= Offset(fragments, k)
    decreases k
  {
    if j < k {
      OffsetsOrdered(fragments, j, k - 1);
      FragmentInWhole(fragments, k - 1);
    }
  }

  /** The marker at `m`, the token `t` and its closing quote all lie inside fragment `k`. */
  predicate LiesIn(fragments: seq<string>, k: nat, m: nat, t: string)
    requires k < |fragments|
  {
    Offset(fragments, k) <= m && m + |MARKER| + |t| + 1 <= Offset(fragments, k + 1)
  }

  lemma FragmentHolds(fragments: seq<string>, k: nat, m: nat, t: string)
    requires k < |fragments| && TokenAt(Concat(fragments), m, t) && LiesIn(fragments, k, m, t)
    ensures '\0' !in fragments[k] ==> Held(fragments[k]) == Some(t)
  {
    FragmentInWhole(fragments, k);
    var a, b := Offset(fragments, k), Offset(fragments, k + 1);
    TokenInSlice(Concat(fragments), a, b, m, t);
    TokenAtExtracts(fragments[k], m - a, t);
  }

  lemma {:induction false} FoldUnchanged(f: (string, string) -> string, token: string, fragments: seq<string>)
    requires forall k :: 0 <= k < |fragments| ==> f(token, fragments[k]) == token
    ensures Fold(f, token, fragments) == token
    decreases |fragments|
  {
    if fragments != [] { FoldUnchanged(f, token, fragments[..|fragments| - 1]); }
  }

  lemma {:induction false} FoldRestarts(f: (string, string) -> string, token: string, fragments: seq<string>,
                                        k: nat, t: string)
    requires k < |fragments| && forall x :: f(x, fragments[k]) == t
    ensures Fold(f, token, fragments) == Fold(f, t, fragments[k + 1..])
    decreases |fragments|
  {
    var n := |fragments| - 1;
    if k < n {
      FoldRestarts(f, token, fragments[..n], k, t);
      var later := fragments[k + 1..];
      assert later[..|later| - 1] == fragments[..n][k + 1..];
      assert later[|later| - 1] == fragments[n];
    }
  }

  /** With no complete token in any fragment the callbacks leave the token alone. */
  lemma NoTokenNoChange(token: string, fragments: seq<string>)
    requires NoneHeld(fragments, 0)
    ensures OnFragments(token, fragments) == token
  {
    FoldUnchanged(OnFragment, token, fragments);
  }

  /** What came before a fragment with a complete token does not matter. */
  lemma RestartAt(token: string, fragments: seq<string>, k: nat, t: string)
    requires k < |fragments| && Held(fragments[k]) == Some(t)
    ensures OnFragments(token, fragments) == OnFragments(t, fragments[k + 1..])
  {
    FoldRestarts(OnFragment, token, fragments, k, t);
  }

  /** No fragment from `from` on holds a complete token. */
  predicate NoneHeld(fragments: seq<string>, from: nat) {
    forall j :: from <= j < |fragments| ==> Held(fragments[j]).None?
  }

  lemma LaterNone(token: string, fragments: seq<string>, from: nat)
    requires from <= |fragments| && NoneHeld(fragments, from)
    ensures OnFragments(token, fragments[from..]) == token
  {
    var later := fragments[from..];
    assert forall j :: 0 <= j < |later| ==> later[j] == fragments[from + j];
    NoTokenNoChange(token, later);
  }

  predicate HoldsToken(fragment: string) { Held(fragment).Some? }

  predicate LastIs(fragments: seq<string>, k: nat, t: string) {
    k < |fragments| && Held(fragments[k]) == Some(t) && NoneHeld(fragments, k + 1)
  }

  /** The last complete token wins, and with none the token stays, for every sequence of fragments. */
  lemma LastHeldWins(token: string, fragments: seq<string>)
    ensures
      var r := OnFragments(token, fragments);
      if NoneHeld(fragments, 0) then r == token else exists k: nat :: LastIs(fragments, k, r)
  {
    if forall i :: 0 <= i < |fragments| ==> !HoldsToken(fragments[i]) {
      NoTokenNoChange(token, fragments);
    } else {
      var k := LastWhere(fragments, HoldsToken, |fragments|);
      var t := Held(fragments[k]).value;
      RestartAt(token, fragments, k, t);
      LaterNone(t, fragments, k + 1);
      assert LastIs(fragments, k, t);
    }
  }

  /** Of a fragment with a NUL only the text before it counts. */
  lemma NulEndsFragment(p: string, rest: string)
    requires '\0' !in p
    ensures Held(p + ['\0'] + rest) == Extract(p)
  {
    var text := p + ['\0'] + rest;
    assert text[|p|] == '\0' && text[..|p|] == p;
    assert forall i :: 0 <= i < |p| ==> text[i] == p[i];
    var c := CString(text);
    assert c == text[..|c|];
    assert |c| == |p|;
  }

  /** If the first marker of the body and its closing quote lie inside fragment `k`, the callbacks
      reach the whole-body token there, and keep it exactly as far as the later fragments do. */
  lemma FragmentedExtraction(token: string, fragments: seq<string>, k: nat, m: nat, t: string)
    requires NulFree(fragments) && k < |fragments|
    requires TokenAt(Concat(fragments), m, t) && LiesIn(fragments, k, m, t)
    ensures Extract(Concat(fragments)) == Some(t)
    ensures OnFragments(token, fragments) == OnFragments(t, fragments[k + 1..])
  {
    TokenAtExtracts(Concat(fragments), m, t);
    FragmentHolds(fragments, k, m, t);
    RestartAt(token, fragments, k, t);
  }

  /** In particular, with no complete token in a later fragment they leave the whole-body token. */
  lemma FragmentedAsWhole(token: string, fragments: seq<string>, k: nat, m: nat, t: string)
    requires NulFree(fragments) && k < |fragments|
    requires TokenAt(Concat(fragments), m, t) && LiesIn(fragments, k, m, t)
    requires NoneHeld(fragments, k + 1)
    ensures OnFragments(token, fragments) == t && Extract(Concat(fragments)) == Some(t)
  {
    FragmentedExtraction(token, fragments, k, m, t);
    LaterNone(t, fragments, k + 1);
  }

  /** A fragment holds a complete token only where the one marker of the body is. */
  lemma HeldTokenLies(fragments: seq<string>, k: nat, m: nat, t: string)
    requires k < |fragments| && TokenAt(Concat(fragments), m, t) && OnlyMarkerAt(Concat(fragments), m)
    requires '\0' !in fragments[k] && Held(fragments[k]).Some?
    ensures LiesIn(fragments, k, m, t)
  {
    var u := Held(fragments[k]).value;
    var i := ExtractedAt(fragments[k], u);
    FragmentInWhole(fragments, k);
    TokenFromSlice(Concat(fragments), Offset(fragments, k), Offset(fragments, k + 1), m, t, i, u);
  }

  lemma LiesInOneOnly(fragments: seq<string>, j: nat, k: nat, m: nat, t: string)
    requires j < k < |fragments| && LiesIn(fragments, k, m, t)
    ensures !LiesIn(fragments, j, m, t)
  {
    OffsetsOrdered(fragments, j + 1, k);
  }

  /** For a body with one marker the fragmentation matters exactly as far as it should: the callbacks
      leave the whole-body token if some fragment holds marker, token and closing quote together,
      and otherwise the token that was there before. */
  lemma FragmentedExactly(token: string, fragments: seq<string>, m: nat, t: string)
    requires NulFree(fragments)
    requires TokenAt(Concat(fragments), m, t) && OnlyMarkerAt(Concat(fragments), m)
    ensures OnFragments(token, fragments) ==
            if exists k :: 0 <= k < |fragments| && LiesIn(fragments, k, m, t) then t else token
  {
    if k :| 0 <= k < |fragments| && LiesIn(fragments, k, m, t) {
      forall j | k < j < |fragments| ensures Held(fragments[j]).None? {
        if Held(fragments[j]).Some? {
          HeldTokenLies(fragments, j, m, t);
          LiesInOneOnly(fragments, k, j, m, t);
        }
      }
      FragmentedAsWhole(token, fragments, k, m, t);
    } else {
      forall k | 0 <= k < |fragments| ensures Held(fragments[k]).None? {
        if Held(fragments[k]).Some? { HeldTokenLies(fragments, k, m, t); }
      }
      NoTokenNoChange(token, fragments);
    }
  }
}
