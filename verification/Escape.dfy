/** The escape watcher that every session runs over its own terminal input
    (secondstar/internal/handler.go:111-137 and 207-230).

    The watcher reads one byte at a time; after a '~' it reads one more byte and
    fires when that byte is '.'.  The specification below does not mention the
    two-read loop: the watcher fires at the first '.' that directly follows an
    odd number of '~' bytes. */
module Escape {
  import opened Prelude

  const TILDE: byte := 126
  const DOT: byte := 46

  /** Number of '~' bytes directly before position k. */
  function TildesBefore(s: Bytes, k: nat): nat
    requires k <= |s|
  {
    if k == 0 || s[k - 1] != TILDE then 0 else 1 + TildesBefore(s, k - 1)
  }

  /** TildesBefore is the length of the maximal run of '~' ending before k. */
  lemma {:induction false} TildesBeforeIsMaximalRun(s: Bytes, k: nat)
    requires k <= |s|
    ensures var n := TildesBefore(s, k);
      && n <= k
      && (forall j :: k - n <= j < k ==> s[j] == TILDE)
      && (n < k ==> s[k - n - 1] != TILDE)
  {
    if k > 0 && s[k - 1] == TILDE { TildesBeforeIsMaximalRun(s, k - 1); }
  }

  /** An escape is completed by the byte at position k. */
  predicate EscapeAt(s: Bytes, k: nat) {
    k < |s| && s[k] == DOT && TildesBefore(s, k) % 2 == 1
  }

  predicate Escaped(s: Bytes) {
    exists k :: 0 <= k < |s| && EscapeAt(s, k)
  }

  /** An odd number of '~' characters, and no more, stands directly before k. */
  ghost predicate OddRunBefore(s: Bytes, k: nat, n: nat) {
    && n % 2 == 1 && n <= k <= |s|
    && (forall j :: k - n <= j < k ==> s[j] as int == '~' as int)
    && (n < k ==> s[k - n - 1] as int != '~' as int)
  }

  /** In characters: an escape is a '.' directly after an odd run of '~'. */
  lemma EscapeMeaning(s: Bytes, k: nat)
    ensures EscapeAt(s, k) <==> k < |s| && s[k] as int == '.' as int && exists n: nat :: OddRunBefore(s, k, n)
  {
    if k < |s| {
      TildesBeforeIsMaximalRun(s, k);
      if EscapeAt(s, k) { assert OddRunBefore(s, k, TildesBefore(s, k)); }
      forall n: nat | OddRunBefore(s, k, n) ensures n == TildesBefore(s, k) {
        OneMaximalRun(s, k, n, TildesBefore(s, k));
      }
    }
  }

  lemma OneMaximalRun(s: Bytes, k: nat, n: nat, m: nat)
    requires k <= |s| && OddRunBefore(s, k, n)
    requires m <= k && (forall j :: k - m <= j < k ==> s[j] == TILDE) && (m < k ==> s[k - m - 1] != TILDE)
    ensures n == m
  {
    NotLonger(s, k, n, m);
    NotLonger(s, k, m, n);
  }

  lemma NotLonger(s: Bytes, k: nat, n: nat, m: nat)
    requires n <= k <= |s| && m <= k
    requires forall j :: k - n <= j < k ==> s[j] as int == '~' as int
    requires m < k ==> s[k - m - 1] as int != '~' as int
    ensures n <= m
  {
  }

  lemma {:induction false} TildesBeforePrefix(s: Bytes, t: Bytes, k: nat)
    requires k <= |s|
    ensures TildesBefore(s + t, k) == TildesBefore(s, k)
  {
    if k > 0 { TildesBeforePrefix(s, t, k - 1); }
  }

  /** Whether an escape is completed depends on the bytes up to it only. */
  lemma EscapedExtend(s: Bytes, b: byte)
    ensures Escaped(s + [b]) <==> Escaped(s) || EscapeAt(s + [b], |s|)
  {
    var t := s + [b];
    forall k | 0 <= k < |s| ensures EscapeAt(t, k) <==> EscapeAt(s, k) {
      TildesBeforePrefix(s, [b], k);
    }
    if Escaped(s) {
      var k :| 0 <= k < |s| && EscapeAt(s, k);
      assert EscapeAt(t, k);
    }
  }

  /** The pipe between the stdin copy and the watcher: the chunks written so far
      and the read position.  The copy never writes an empty chunk and a one-byte
      read never straddles chunks, so reads see Flat(chunks) byte by byte. */
  class Pipe {
    const chunks: seq<Bytes>
    var index: nat
    var offset: nat

    /** The bytes still to be read, if the position is a good one. */
    ghost function Unread(): Option<Bytes>
      reads this
    {
      if index == |chunks| && offset == 0 then Some([])
      else if index < |chunks| && offset < |chunks[index]| && NonEmpty(chunks) then
        Some(chunks[index][offset..] + Flat(chunks[index + 1..]))
      else None
    }

    constructor (chunks: seq<Bytes>)
      requires NonEmpty(chunks)
      ensures Unread() == Some(Flat(chunks))
    {
      this.chunks, index, offset := chunks, 0, 0;
      new;
      assert chunks != [] ==> chunks[0][0..] == chunks[0];
    }

    /** One single-byte read; None is the read error after the last byte. */
    method ReadByte() returns (b: Option<byte>)
      requires Unread().Some?
      modifies this
      ensures var before := old(Unread()).value;
        if before == [] then b == None && Unread() == Some([])
        else b == Some(before[0]) && Unread() == Some(before[1..])
    {
      if index == |chunks| { return None; }
      var chunk := chunks[index];
      ghost var later := Flat(chunks[index + 1..]);
      b := Some(chunk[offset]);
      assert (chunk[offset..] + later)[1..] == chunk[offset + 1..] + later;
      if offset + 1 < |chunk| {
        offset := offset + 1;
      } else {
        index, offset := index + 1, 0;
        NextChunk(chunks, index);
      }
    }
  }

  predicate NonEmpty(chunks: seq<Bytes>) {
    forall k :: 0 <= k < |chunks| ==> 0 < |chunks[k]|
  }

  lemma NextChunk(chunks: seq<Bytes>, index: nat)
    requires index <= |chunks|
    ensures Flat(chunks[index..]) == if index == |chunks| then [] else chunks[index][0..] + Flat(chunks[index + 1..])
  {
    if index < |chunks| { assert chunks[index..][1..] == chunks[index + 1..]; }
  }

  /** What the watcher knows after k bytes. */
  datatype Mode = Idle | Armed | Fired

  ghost function ModeAt(s: Bytes, k: nat): Mode
    requires k <= |s|
  {
    if exists j :: 0 <= j < k && EscapeAt(s, j) then Fired
    else if TildesBefore(s, k) % 2 == 1 then Armed else Idle
  }

  /** An idle watcher is armed by '~' and left idle by any other byte. */
  lemma IdleByte(s: Bytes, k: nat)
    requires k < |s| && ModeAt(s, k) == Idle
    ensures ModeAt(s, k + 1) == if s[k] == TILDE then Armed else Idle
  {
    assert !EscapeAt(s, k);
  }

  /** An armed one fires at '.' and goes idle at any other byte. */
  lemma ArmedByte(s: Bytes, k: nat)
    requires k < |s| && ModeAt(s, k) == Armed
    ensures ModeAt(s, k + 1) == if s[k] == DOT then Fired else Idle
    ensures s[k] == DOT ==> EscapeAt(s, k) && NoEscapeBefore(s, k)
  {
    assert EscapeAt(s, k) <==> s[k] == DOT;
  }

  ghost predicate NoEscapeBefore(s: Bytes, n: nat) {
    forall k :: 0 <= k < n ==> !EscapeAt(s, k)
  }

  /** The watcher goroutine on a pipe: for every chunking of the input it fires
      exactly when the input holds an escape, and it has then consumed the input
      up to and including the first one. */
  method Watch(chunks: seq<Bytes>) returns (fired: bool, consumed: nat)
    requires NonEmpty(chunks)
    ensures fired <==> Escaped(Flat(chunks))
    ensures fired ==> 0 < consumed && EscapeAt(Flat(chunks), consumed - 1) && NoEscapeBefore(Flat(chunks), consumed - 1)
    ensures !fired ==> consumed == |Flat(chunks)|
  {
    var pipe := new Pipe(chunks);
    ghost var all := Flat(chunks);
    consumed := 0;
    while true
      invariant fresh(pipe) && consumed <= |all| && pipe.Unread() == Some(all[consumed..])
        && ModeAt(all, consumed) == Idle
      decreases |all| - consumed
    {
      var b := pipe.ReadByte();
      if b.None? { return false, consumed; }
      IdleByte(all, consumed);
      consumed := consumed + 1;
      if b.value == TILDE {
        b := pipe.ReadByte();
        if b.None? { return false, consumed; }
        ArmedByte(all, consumed);
        consumed := consumed + 1;
        if b.value == DOT { return true, consumed; }
      }
    }
  }
}
