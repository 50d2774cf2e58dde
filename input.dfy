/**
 * Keystroke dispatch of input/input.go.
 *
 * `Read` makes a zeroed 5-byte buffer, reads once from its source and, when
 * the read returned data and no error, walks ALL five bytes of the buffer in
 * order, calling one navigator method for each 'j', 'k', '\n' or 'h'. The
 * navigator is an interface there; here its calls are recorded as a trace of
 * `Command`s, and the reader is the outcome of its one `Read` call.
 */
module Input {
  import opened Optional

  newtype byte = x: int | 0 <= x < 0x100

  /** The length of the buffer `Read` allocates (`make([]byte, 5, 5)`). */
  const BufferSize: nat := 5

  /** The methods of the `Navigator` interface. */
  datatype Command = SelectNextEntry | SelectPreviousEntry | IntoSelectedEntry | ToParentDirectory

  /** The navigator call a byte triggers, if any: only the four keys trigger one. */
  function CommandFor(b: byte): (r: Option<Command>)
    ensures r.Some? <==> b == 'j' as byte || b == 'k' as byte || b == '\n' as byte || b == 'h' as byte
  {
    if b == 'j' as byte then Some(SelectNextEntry)
    else if b == 'k' as byte then Some(SelectPreviousEntry)
    else if b == '\n' as byte then Some(IntoSelectedEntry)
    else if b == 'h' as byte then Some(ToParentDirectory)
    else None
  }

  /** The key for each command: the inverse of `CommandFor`. */
  function Key(c: Command): (b: byte)
    ensures CommandFor(b) == Some(c)
  {
    match c
    case SelectNextEntry => 'j' as byte
    case SelectPreviousEntry => 'k' as byte
    case IntoSelectedEntry => '\n' as byte
    case ToParentDirectory => 'h' as byte
  }

  /** The calls the switch makes over `data`, one per matching byte, in byte order. */
  function Dispatch(data: seq<byte>): (r: seq<Command>)
    ensures |r| <= |data|
  {
    if data == [] then []
    else
      var last := data[|data| - 1];
      Dispatch(data[..|data| - 1]) + (if CommandFor(last).Some? then [CommandFor(last).value] else [])
  }

  function Keys(cmds: seq<Command>): (r: seq<byte>)
    ensures |r| == |cmds|
  {
    if cmds == [] then [] else Keys(cmds[..|cmds| - 1]) + [Key(cmds[|cmds| - 1])]
  }

  function Zeros(n: nat): (r: seq<byte>)
    ensures |r| == n
    ensures forall i :: 0 <= i < n ==> r[i] == 0
  {
    if n == 0 then [] else Zeros(n - 1) + [0]
  }

  /**
   * One call of `source.Read(data)`: the bytes the source stores at the
   * front of the buffer (at most its length), the count it returns and
   * whether it returns a non-nil error.
   */
  datatype ReadOutcome = ReadOutcome(written: seq<byte>, count: int, failed: bool)

  function Min(a: nat, b: nat): nat {
    if a < b then a else b
  }

  /** The buffer after the read: what the source stored, then the zeros of `make`. */
  function Buffer(source: ReadOutcome): (r: seq<byte>)
    ensures |r| == BufferSize
  {
    var n := Min(|source.written|, BufferSize);
    source.written[..n] + Zeros(BufferSize - n)
  }

  /** The calls `Read` makes on the navigator. */
  function Trace(source: ReadOutcome): seq<Command> {
    if source.count > 0 && !source.failed then Dispatch(Buffer(source)) else []
  }

  /** The source `source.Read(data)` stands for: stores its bytes into the buffer. */
  method Receive(source: ReadOutcome, data: array<byte>) returns (bytesRead: int, failed: bool)
    requires data.Length == BufferSize
    requires forall i :: 0 <= i < data.Length ==> data[i] == 0
    modifies data
    ensures data[..] == Buffer(source)
    ensures bytesRead == source.count && failed == source.failed
  {
    var n := Min(|source.written|, BufferSize);
    for i := 0 to n
      invariant forall k :: 0 <= k < i ==> data[k] == source.written[k]
      invariant forall k :: i <= k < data.Length ==> data[k] == 0
    {
      data[i] := source.written[i];
    }
    assert data[..] == source.written[..n] + Zeros(BufferSize - n);
    bytesRead, failed := source.count, source.failed;
  }

  /** `Read(source, navigator)`, returning the navigator calls it makes, in order. */
  method Read(source: ReadOutcome) returns (calls: seq<Command>)
    ensures calls == Trace(source)
  {
    var data := new byte[BufferSize](_ => 0);
    var bytesRead, failed := Receive(source, data);
    calls := [];
    if bytesRead > 0 && !failed {
      for i := 0 to data.Length
        invariant calls == Dispatch(data[..i])
      {
        assert data[..i + 1][..i] == data[..i];
        match CommandFor(data[i])
        case Some(c) => calls := calls + [c];
        case None =>
      }
      assert data[..data.Length] == data[..];
    }
  }

  // ---------------------------------------------------------------------
  // Properties

  /** Dispatch works byte by byte: the calls for a concatenation are the calls for each part, in order. */
  lemma {:induction false} DispatchAppend(a: seq<byte>, b: seq<byte>)
    ensures Dispatch(a + b) == Dispatch(a) + Dispatch(b)
    decreases |b|
  {
    if b == [] {
      assert a + b == a;
    } else {
      var b' := b[..|b| - 1];
      assert (a + b)[..|a + b| - 1] == a + b';
      assert (a + b)[|a + b| - 1] == b[|b| - 1];
      DispatchAppend(a, b');
    }
  }

  /** Zero bytes, such as the unread tail of the buffer, trigger nothing. */
  lemma {:induction false} ZerosDispatchNothing(n: nat)
    ensures Dispatch(Zeros(n)) == []
    decreases n
  {
    if n > 0 {
      assert Zeros(n)[..n - 1] == Zeros(n - 1);
      ZerosDispatchNothing(n - 1);
    }
  }

  /** Decoding the keys of a command sequence gives back exactly that sequence. */
  lemma {:induction false} DispatchKeys(cmds: seq<Command>)
    ensures Dispatch(Keys(cmds)) == cmds
    decreases |cmds|
  {
    if cmds != [] {
      var init := cmds[..|cmds| - 1];
      DispatchKeys(init);
      DispatchAppend(Keys(init), [Key(cmds[|cmds| - 1])]);
      assert [Key(cmds[|cmds| - 1])][..0] == [];
      assert cmds == init + [cmds[|cmds| - 1]];
    }
  }

  /** `Key` is the only byte that triggers its command, so the map is a bijection onto the four keys. */
  lemma KeyIsOnlyTrigger(b: byte, c: Command)
    ensures CommandFor(b) == Some(c) <==> b == Key(c)
  {
  }

  /** The bytes of `data` that trigger a call, in order. */
  function KeyBytes(data: seq<byte>): (r: seq<byte>)
    ensures |r| <= |data|
  {
    if data == [] then []
    else
      var last := data[|data| - 1];
      KeyBytes(data[..|data| - 1]) + (if CommandFor(last).Some? then [last] else [])
  }

  lemma {:induction false} KeysAppend(a: seq<Command>, b: seq<Command>)
    ensures Keys(a + b) == Keys(a) + Keys(b)
    decreases |b|
  {
    if b == [] {
      assert a + b == a;
    } else {
      var b' := b[..|b| - 1];
      assert (a + b)[..|a + b| - 1] == a + b';
      assert (a + b)[|a + b| - 1] == b[|b| - 1];
      KeysAppend(a, b');
    }
  }

  /** The converse of `DispatchKeys`: the calls for any bytes are the commands of exactly its key bytes. */
  lemma {:induction false} KeysOfDispatch(data: seq<byte>)
    ensures Keys(Dispatch(data)) == KeyBytes(data)
    decreases |data|
  {
    if data != [] {
      var init := data[..|data| - 1];
      var last := data[|data| - 1];
      KeysOfDispatch(init);
      var t := if CommandFor(last).Some? then [CommandFor(last).value] else [];
      KeysAppend(Dispatch(init), t);
      if CommandFor(last).Some? {
        KeyIsOnlyTrigger(last, CommandFor(last).value);
        assert t[..0] == [];
        assert Keys(t) == [last];
      }
    }
  }

  /** A failed or empty read calls nothing. */
  lemma NothingWithoutData(source: ReadOutcome)
    requires source.count <= 0 || source.failed
    ensures Trace(source) == []
  {
  }

  /** At most one call per buffer byte, so at most five per `Read`. */
  lemma AtMostFiveCalls(source: ReadOutcome)
    ensures |Trace(source)| <= BufferSize
  {
  }

  /** A source that copies a byte string into the buffer (`copy(target, s)`), as the tests use. */
  function StringSource(s: seq<byte>): ReadOutcome {
    var n := Min(|s|, BufferSize);
    ReadOutcome(s[..n], n, false)
  }

  /** Zero to five keys read at once reach the navigator as exactly their commands, in order. */
  lemma ReadKeys(cmds: seq<Command>)
    requires |cmds| <= BufferSize
    ensures Trace(StringSource(Keys(cmds))) == cmds
  {
    if cmds == [] {
      return;
    }
    var keys := Keys(cmds);
    var pad := Zeros(BufferSize - |keys|);
    assert keys[..|keys|] == keys;
    var src := StringSource(keys);
    assert src == ReadOutcome(keys, |keys|, false);
    assert Buffer(src) == keys + pad;
    DispatchAppend(keys, pad);
    ZerosDispatchNothing(BufferSize - |keys|);
    DispatchKeys(cmds);
    assert Dispatch(keys + pad) == cmds + [];
  }

  /** The four keystrokes of the tests, each read on its own. */
  lemma SingleKeys()
    ensures Trace(StringSource(['j' as byte])) == [SelectNextEntry]
    ensures Trace(StringSource(['k' as byte])) == [SelectPreviousEntry]
    ensures Trace(StringSource(['\n' as byte])) == [IntoSelectedEntry]
    ensures Trace(StringSource(['h' as byte])) == [ToParentDirectory]
  {
    forall c: Command
      ensures Trace(StringSource([Key(c)])) == [c]
    {
      assert [c][..0] == [];
      assert Keys([c]) == [Key(c)];
      ReadKeys([c]);
    }
    assert Key(SelectNextEntry) == 'j' as byte;
    assert Key(SelectPreviousEntry) == 'k' as byte;
    assert Key(IntoSelectedEntry) == '\n' as byte;
    assert Key(ToParentDirectory) == 'h' as byte;
  }

  /**
   * The loop covers the whole buffer, not just the first `bytesRead` bytes:
   * a source that stores two 'j's but reports one still causes two calls.
   */
  lemma WholeBufferDispatched()
    ensures Trace(ReadOutcome(['j' as byte, 'j' as byte], 1, false)) == [SelectNextEntry, SelectNextEntry]
  {
    var j := 'j' as byte;
    var b := Buffer(ReadOutcome([j, j], 1, false));
    assert b == [j, j] + Zeros(3);
    DispatchAppend([j, j], Zeros(3));
    ZerosDispatchNothing(3);
    DispatchKeys([SelectNextEntry, SelectNextEntry]);
    assert Keys([SelectNextEntry, SelectNextEntry]) == [j, j];
  }
}
