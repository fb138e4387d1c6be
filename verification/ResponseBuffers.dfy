/** The token and receive buffers, written in place by the response callback (src/http_app.c) and by
    the receive loop (src/app_bk.c). */
module ResponseBuffers {
  import opened TokenText
  import opened Fragments

  const TOKEN_SIZE: nat := 2048
  const RECV_BUF_SIZE: nat := 4096
  const READ_SIZE: nat := 1024

  function Min(a: nat, b: nat): nat { if a < b then a else b }

  /** The token in `text`, if any, fits the token buffer with its terminator. */
  predicate TokenFits(text: string) {
    Extract(CString(text)).Some? ==> |Extract(CString(text)).value| < TOKEN_SIZE
  }

  lemma Terminated(text: string, n: nat)
    requires n < |text| && text[n] == '\0' && '\0' !in text[..n]
    ensures CString(text) == text[..n]
  {
    assert forall i :: 0 <= i < n ==> text[i] == text[..n][i];
  }

  lemma CStringStable(text: string)
    ensures CString(CString(text)) == CString(text)
  {
  }

  class Buffers {
    const token: array<char>
    const recvBuf: array<char>

    ghost predicate Valid()
      reads this
    {
      token.Length == TOKEN_SIZE && recvBuf.Length == RECV_BUF_SIZE && token != recvBuf
    }

    ghost function Token(): string
      reads token
    {
      CString(token[..])
    }

    constructor ()
      ensures Valid() && fresh(token) && fresh(recvBuf) && Token() == ""
      ensures token.Length == 2048 && recvBuf.Length == 4096
    {
      token := new char[TOKEN_SIZE](_ => '\0');
      recvBuf := new char[RECV_BUF_SIZE](_ => '\0');
      new;
      assert token[..][0] == '\0';
    }

    /** strncpy into the token buffer, and the terminator. */
    method CopyToken(t: string)
      requires Valid() && |t| < TOKEN_SIZE && '\0' !in t
      modifies token
      ensures Token() == t
    {
      for i := 0 to |t|
        invariant forall k :: 0 <= k < i ==> token[k] == t[k]
      {
        token[i] := t[i];
      }
      token[|t|] := '\0';
      assert token[..][..|t|] == t;
      Terminated(token[..], |t|);
    }

    /** Extraction from the C string `text` into the token buffer: strstr, strchr, strncpy, and the
        terminator. */
    method StoreToken(text: string)
      requires Valid() && '\0' !in text && TokenFits(text)
      modifies token
      ensures Token() == OnFragment(old(Token()), text)
      ensures Extract(text).None? ==> token[..] == old(token[..])
    {
      var marker := Find(text, MARKER, 0);
      if marker.Some? {
        var start := marker.value + |MARKER|;
        var end := FindChar(text, QUOTE, start);
        if end.Some? {
          var t := text[start..end.value];
          assert Extract(text) == Some(t);
          CopyToken(t);
        }
      }
    }

    /** One call of the response callback. */
    method ResponseCallback(fragment: string)
      requires Valid() && TokenFits(fragment)
      modifies token
      ensures Token() == OnFragment(old(Token()), fragment)
    {
      if |fragment| > 0 {
        CStringStable(fragment);
        StoreToken(CString(fragment));
      } else {
        assert Extract(CString(fragment)).None?;
      }
    }

    /** The calls that one response makes, in order. */
    method DeliverFragments(fragments: seq<string>)
      requires Valid() && forall k :: 0 <= k < |fragments| ==> TokenFits(fragments[k])
      modifies token
      ensures Token() == OnFragments(old(Token()), fragments)
    {
      for k := 0 to |fragments|
        invariant Token() == OnFragments(old(Token()), fragments[..k])
      {
        assert fragments[..k + 1][..k] == fragments[..k];
        ResponseCallback(fragments[k]);
      }
      assert fragments[..|fragments|] == fragments;
    }

    /** One call of `recv` that delivers `chunk` at `recvBuf[off]`. */
    method Recv(chunk: string, off: nat)
      requires Valid() && off + |chunk| <= RECV_BUF_SIZE
      modifies recvBuf
      ensures recvBuf[..off + |chunk|] == old(recvBuf[..off]) + chunk
    {
      for i := 0 to |chunk|
        invariant recvBuf[..off + i] == old(recvBuf[..off]) + chunk[..i]
      {
        recvBuf[off + i] := chunk[i];
      }
    }

    /** The receive loop. `chunks` is what the calls of `recv` deliver before the one that returns 0
        or, if `fails`, a negative number. */
    method Receive(chunks: seq<string>, fails: bool) returns (ok: bool, off: nat)
      requires Valid()
      requires forall k :: 0 <= k < |chunks| ==> 1 <= |chunks[k]| <= READ_SIZE
      requires |Concat(chunks)| <= RECV_BUF_SIZE
      modifies recvBuf
      ensures ok == !fails && off == |Concat(chunks)| && recvBuf[..off] == Concat(chunks)
    {
      off, ok := 0, true;
      var call, more := 0, true;
      while more
        invariant call <= |chunks| && off == |Concat(chunks[..call])| <= RECV_BUF_SIZE
        invariant recvBuf[..off] == Concat(chunks[..call])
        invariant !more ==> call == |chunks| && !fails
        decreases |chunks| - call, more
      {
        assert call == |chunks| ==> chunks[..call] == chunks;
        var bytes := if call < |chunks| then |chunks[call]| else if fails then -1 else 0;
        if bytes < 0 {
          return false, off;
        }
        if bytes > 0 {
          FragmentInWhole(chunks, call);
          assert chunks[..call + 1][..call] == chunks[..call];
          Recv(chunks[call], off);
          call := call + 1;
          off := off + bytes;
        }
        more := bytes != 0 || off > RECV_BUF_SIZE;
      }
      assert chunks[..call] == chunks;
    }

    /** The receive loop, the terminator, and the extraction after it. The result depends on the
        stream only, not on how `recv` cut it; a stream that fills the buffer loses its last
        character to the terminator, and a failed receive leaves the token alone. */
    method ReceiveToken(chunks: seq<string>, fails: bool) returns (ret: int, off: nat)
      requires Valid() && NulFree(chunks)
      requires forall k :: 0 <= k < |chunks| ==> 1 <= |chunks[k]| <= READ_SIZE
      requires |Concat(chunks)| <= RECV_BUF_SIZE
      requires TokenFits(Concat(chunks)[..Min(|Concat(chunks)|, RECV_BUF_SIZE - 1)])
      modifies token, recvBuf
      ensures off == |Concat(chunks)|
      ensures fails ==> ret == -1 && token[..] == old(token[..])
      ensures !fails ==>
        var kept := Concat(chunks)[..Min(off, 4095)];
        ret == 0 && CString(recvBuf[..]) == kept && Token() == OnFragment(old(Token()), kept)
    {
      var ok;
      ok, off := Receive(chunks, fails);
      if !ok {
        return -1, off;
      }
      ret := 0;
      NulFreeConcat(chunks);
      Terminate(off, Concat(chunks));
      StoreToken(CString(recvBuf[..]));
    }

    method Terminate(off: nat, ghost stream: string)
      requires Valid() && off <= RECV_BUF_SIZE
      requires recvBuf[..off] == stream && '\0' !in stream
      modifies recvBuf
      ensures CString(recvBuf[..]) == stream[..Min(off, RECV_BUF_SIZE - 1)]
    {
      ghost var n := Min(off, RECV_BUF_SIZE - 1);
      if off < RECV_BUF_SIZE {
        recvBuf[off] := '\0';
      } else {
        recvBuf[RECV_BUF_SIZE - 1] := '\0';
      }
      assert recvBuf[..][..n] == stream[..n];
      Terminated(recvBuf[..], n);
    }
  }

  lemma {:induction false} NulFreeConcat(fragments: seq<string>)
    requires NulFree(fragments)
    ensures '\0' !in Concat(fragments)
    decreases |fragments|
  {
    if fragments != [] { NulFreeConcat(fragments[..|fragments| - 1]); }
  }
}
