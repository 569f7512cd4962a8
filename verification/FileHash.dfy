/**
 * Hashing a file in chunks: the read loop over a reused 4096-byte buffer, an incremental digest, and the
 * hexadecimal output. The digest is any fold over bytes; SHA-256 (section 6.2 of FIPS 180-4) is one.
 */
module FileHash {
  import opened Collections
  import opened TextNormalization

  const CHUNK: nat := 4096

  // ----- the digest ----------------------------------------------------------------------------------------

  function Absorbed<C>(absorb: (C, byte) -> C, state: C, bytes: seq<byte>): C {
    if bytes == [] then state
    else absorb(Absorbed(absorb, state, bytes[..|bytes| - 1]), bytes[|bytes| - 1])
  }

  lemma {:induction false} AbsorbedInPieces<C>(absorb: (C, byte) -> C, state: C, a: seq<byte>, b: seq<byte>)
    ensures Absorbed(absorb, state, a + b) == Absorbed(absorb, Absorbed(absorb, state, a), b)
  {
    if b == [] {
      assert a + b == a;
    } else {
      AbsorbedInPieces(absorb, state, a, b[..|b| - 1]);
      assert (a + b)[..|a + b| - 1] == a + b[..|b| - 1];
    }
  }

  /** A digest context whose calls succeed while `budget` lasts (`None`: always). */
  class DigestContext<C> {
    const absorb: (C, byte) -> C
    var state: C
    var budget: Option<nat>

    constructor (absorb: (C, byte) -> C, state: C, budget: Option<nat>)
      ensures this.absorb == absorb && this.state == state && this.budget == budget
    {
      this.absorb, this.state, this.budget := absorb, state, budget;
    }

    method Call() returns (ok: bool)
      modifies this`budget
      ensures ok <==> old(budget) != Some(0)
      ensures budget == if ok && old(budget).Some? then Some(old(budget).value - 1) else old(budget)
    {
      ok := budget != Some(0);
      if ok && budget.Some? {
        budget := Some(budget.value - 1);
      }
    }

    method Update(bytes: seq<byte>) returns (ok: bool)
      modifies this
      ensures ok <==> old(budget) != Some(0)
      ensures budget == if ok && old(budget).Some? then Some(old(budget).value - 1) else old(budget)
      ensures state == if ok then Absorbed(absorb, old(state), bytes) else old(state)
    {
      ok := Call();
      if ok {
        for i := 0 to |bytes|
          invariant state == Absorbed(absorb, old(state), bytes[..i])
          invariant budget == if old(budget).Some? then Some(old(budget).value - 1) else old(budget)
        {
          assert bytes[..i + 1][..i] == bytes[..i];
          state := absorb(state, bytes[i]);
        }
        assert bytes[..|bytes|] == bytes;
      }
    }
  }

  // ----- the stream ----------------------------------------------------------------------------------------

  /** A file of which only a prefix can be read: all of it, unless a read error cuts it short. */
  datatype File = File(data: seq<byte>, readable: nat) {
    predicate Ok() { readable <= |data| }

    function Readable(): seq<byte>
      requires Ok()
    {
      data[..readable]
    }
  }

  class InputStream {
    const data: seq<byte>
    var position: nat

    constructor (file: File)
      requires file.Ok()
      ensures data == file.Readable() && position == 0
    {
      data, position := file.Readable(), 0;
    }

    /** Fills the buffer as far as reading succeeds; `ok` is the state of the stream afterwards, which is the
        same for the end of the file and for an error. */
    method Read(buffer: array<byte>) returns (ok: bool, count: nat)
      requires position <= |data|
      modifies this, buffer
      ensures count == Min(buffer.Length, |data| - old(position)) && position == old(position) + count
      ensures buffer[..count] == data[old(position)..position]
      ensures ok <==> count == buffer.Length
    {
      count := Min(buffer.Length, |data| - position);
      for i := 0 to count
        invariant position == old(position)
        invariant forall j | 0 <= j < i :: buffer[j] == data[position + j]
      {
        buffer[i] := data[position + i];
      }
      position := position + count;
      ok := count == buffer.Length;
    }
  }

  // ----- hexadecimal ---------------------------------------------------------------------------------------

  function Digit(n: int): char
    requires 0 <= n < 16
  {
    if n < 10 then '0' + n as char else 'a' + (n - 10) as char
  }

  function Hex(bytes: seq<byte>): string {
    if bytes == [] then ""
    else
      var b := bytes[|bytes| - 1];
      Hex(bytes[..|bytes| - 1]) + [Digit(b / 16), Digit(b % 16)]
  }

  function Value(c: char): int {
    if '0' <= c <= '9' then c as int - '0' as int
    else if 'a' <= c <= 'f' then c as int - 'a' as int + 10
    else -1
  }

  /** Reading hexadecimal digits two by two. */
  function Unhex(s: string): Option<seq<byte>> {
    if s == "" then Some([])
    else if |s| == 1 || Value(s[|s| - 2]) < 0 || Value(s[|s| - 1]) < 0 then None
    else
      var front := Unhex(s[..|s| - 2]);
      if front.None? then None else Some(front.value + [16 * Value(s[|s| - 2]) + Value(s[|s| - 1])])
  }

  lemma ByteFromDigits(b: byte)
    ensures Value(Digit(b / 16)) == b / 16 && Value(Digit(b % 16)) == b % 16
    ensures 16 * Value(Digit(b / 16)) + Value(Digit(b % 16)) == b
  {
    DigitValue(b / 16);
    DigitValue(b % 16);
  }

  lemma DigitValue(n: int)
    requires 0 <= n < 16
    ensures Value(Digit(n)) == n
  {
  }

  lemma {:induction false} HexRoundTrip(bytes: seq<byte>)
    ensures |Hex(bytes)| == 2 * |bytes| && Unhex(Hex(bytes)) == Some(bytes)
  {
    if bytes != [] {
      var front, b := bytes[..|bytes| - 1], bytes[|bytes| - 1];
      HexRoundTrip(front);
      var s := Hex(bytes);
      assert s[..|s| - 2] == Hex(front);
      ByteFromDigits(b);
      assert bytes == front + [b];
    }
  }

  /** Each byte is written as two lower-case hexadecimal digits, the high one first. */
  lemma {:induction false} HexDigits(bytes: seq<byte>, i: nat)
    requires i < |bytes|
    ensures |Hex(bytes)| == 2 * |bytes|
    ensures Hex(bytes)[2 * i] == "0123456789abcdef"[bytes[i] / 16]
    ensures Hex(bytes)[2 * i + 1] == "0123456789abcdef"[bytes[i] % 16]
  {
    var front, b := bytes[..|bytes| - 1], bytes[|bytes| - 1];
    HexRoundTrip(bytes);
    HexRoundTrip(front);
    if i < |front| {
      HexDigits(front, i);
    } else {
      DigitIs(b / 16);
      DigitIs(b % 16);
    }
  }

  lemma DigitIs(n: int)
    requires 0 <= n < 16
    ensures Digit(n) == "0123456789abcdef"[n]
  {
    assert "0123456789abcdef"[n] == if n < 10 then "0123456789"[n] else "abcdef"[n - 10];
  }

  /** Different digests are written differently. */
  lemma HexInjective(a: seq<byte>, b: seq<byte>)
    requires Hex(a) == Hex(b)
    ensures a == b
  {
    HexRoundTrip(a);
    HexRoundTrip(b);
  }

  // ----- the file hash ---------------------------------------------------------------------------------------

  /** How many updates a file takes: full chunks, and one more for a remainder. */
  function Updates(length: nat): nat { (length + CHUNK - 1) / CHUNK }

  /** A full chunk is one update; a remainder is one if there is any. */
  lemma UpdatesStep(length: nat)
    ensures Updates(length) == if length >= CHUNK then 1 + Updates(length - CHUNK) else if length > 0 then 1 else 0
  {
  }

  /** All calls of the digest library: create, initialize, the updates, finish. */
  function Calls(length: nat): nat { 3 + Updates(length) }

  predicate Suffices(budget: Option<nat>, calls: nat) { budget.None? || budget.value >= calls }

  lemma NextPiece<C>(absorb: (C, byte) -> C, state: C, data: seq<byte>, from: nat, to: nat)
    requires from <= to <= |data|
    ensures Absorbed(absorb, Absorbed(absorb, state, data[..from]), data[from..to])
         == Absorbed(absorb, state, data[..to])
  {
    assert data[..to] == data[..from] + data[from..to];
    AbsorbedInPieces(absorb, state, data[..from], data[from..to]);
  }

  function Spent(budget: Option<nat>, calls: nat): Option<nat>
    requires Suffices(budget, calls)
  {
    if budget.Some? then Some(budget.value - calls) else None
  }

  /** One update with what the last read delivered: everything up to `to` has then been absorbed. */
  method DigestPiece<C>(
    ctx: DigestContext<C>, piece: seq<byte>, ghost data: seq<byte>, ghost initial: C, ghost from: nat, ghost to: nat)
    returns (ok: bool)
    requires from <= to <= |data| && piece == data[from..to]
    requires ctx.state == Absorbed(ctx.absorb, initial, data[..from])
    modifies ctx
    ensures ok <==> Suffices(old(ctx.budget), 1)
    ensures ok ==> ctx.budget == Spent(old(ctx.budget), 1) && ctx.state == Absorbed(ctx.absorb, initial, data[..to])
  {
    NextPiece(ctx.absorb, initial, data, from, to);
    ok := ctx.Update(piece);
  }

  /** The read loop; reports whether all updates succeeded. */
  method DigestStream<C>(stream: InputStream, ctx: DigestContext<C>) returns (ok: bool)
    requires stream.position == 0
    modifies stream, ctx
    ensures ok <==> Suffices(old(ctx.budget), Updates(|stream.data|))
    ensures ok ==> ctx.state == Absorbed(ctx.absorb, old(ctx.state), stream.data)
    ensures ok ==> ctx.budget == Spent(old(ctx.budget), Updates(|stream.data|))
  {
    ghost var initial, budget := ctx.state, ctx.budget;
    var data := stream.data;
    var buffer := new byte[CHUNK](_ => 0);
    ghost var chunks: nat, done: nat := 0, 0;
    var good, count := stream.Read(buffer);
    while good
      invariant done + count == stream.position <= |data| && Updates(|data|) == chunks + Updates(|data| - done)
      invariant count == Min(CHUNK, |data| - done) && (good <==> count == CHUNK)
      invariant buffer[..count] == data[done..stream.position]
      invariant Suffices(budget, chunks) && ctx.budget == Spent(budget, chunks)
      invariant ctx.state == Absorbed(ctx.absorb, initial, data[..done])
      decreases |data| - done
    {
      UpdatesStep(|data| - done);
      ok := DigestPiece(ctx, buffer[..count], data, initial, done, stream.position);
      if !ok {
        return;
      }
      chunks, done := chunks + 1, stream.position;
      good, count := stream.Read(buffer);
    }
    assert stream.position == |data| && data[..stream.position] == data;
    assert Updates(|data|) == chunks + (if count > 0 then 1 else 0) by {
      UpdatesStep(|data| - done);
    }
    ok := true;
    if count > 0 {
      ok := DigestPiece(ctx, buffer[..count], data, initial, done, stream.position);
    }
  }

  /** A digest algorithm: absorb byte after byte from an initial state, then read the value off. */
  datatype Digest<!C> = Digest(absorb: (C, byte) -> C, initial: C, finish: C -> seq<byte>) {
    function Of(data: seq<byte>): seq<byte> { finish(Absorbed(absorb, initial, data)) }
  }

  /** What the code returns is the hash of the whole file exactly if no read failed, or else the part that could
      be read happens to collide with the whole. */
  lemma WholeFileExactly<C>(file: File, d: Digest<C>)
    requires file.Ok()
    ensures Hex(d.Of(file.Readable())) == Hex(d.Of(file.data))
       <==> file.readable == |file.data| || d.Of(file.Readable()) == d.Of(file.data)
  {
    if file.readable == |file.data| {
      assert file.Readable() == file.data;
    }
    if Hex(d.Of(file.Readable())) == Hex(d.Of(file.data)) {
      HexInjective(d.Of(file.Readable()), d.Of(file.data));
    }
  }

  /** The digest that collects what it absorbs. */
  const COLLECTOR: Digest<seq<byte>> := Digest((s: seq<byte>, b: byte) => s + [b], [], (s: seq<byte>) => s)

  /** Absorbing visits every byte once, in order. */
  lemma {:induction false} CollectorCollects(data: seq<byte>)
    ensures COLLECTOR.Of(data) == data
  {
    if data != [] {
      CollectorCollects(data[..|data| - 1]);
      assert data == data[..|data| - 1] + [data[|data| - 1]];
    }
  }

  /** A one-byte checksum: a digest of fixed length. */
  const CHECKSUM: Digest<int> := Digest((s: int, b: byte) => s + b, 0, (s: int) => [s % 256])

  /** A file of one byte whose read fails at once gets the hash of the empty file. */
  lemma ReadErrorHashesPrefix()
    ensures
      var file := File([97], 0);
      file.Ok() && Hex(CHECKSUM.Of(file.Readable())) == "00" && Hex(CHECKSUM.Of(file.data)) == "61"
  {
    assert File([97], 0).Readable() == [];
    assert Absorbed(CHECKSUM.absorb, 0, [97]) == Absorbed(CHECKSUM.absorb, 0, [97][..0]) + 97 == 97;
    assert Hex([0]) == Hex([0][..0]) + [Digit(0), Digit(0)];
    assert Hex([97]) == Hex([97][..0]) + [Digit(6), Digit(1)];
  }

  method ToHex(hash: seq<byte>) returns (s: string)
    ensures s == Hex(hash)
  {
    s := "";
    for i := 0 to |hash|
      invariant s == Hex(hash[..i])
    {
      assert hash[..i + 1][..i] == hash[..i];
      s := s + [Digit(hash[i] / 16), Digit(hash[i] % 16)];
    }
    assert hash[..|hash|] == hash;
  }

  /** `None` is a file that cannot be opened; `budget` is how many library calls succeed. A read error is not
      reported: a file not wholly read is answered like any other, with the hash of what could be read. */
  method CalculateFileHash<C>(file: Option<File>, d: Digest<C>, budget: Option<nat>) returns (r: Result<string, string>)
    requires file.Some? ==> file.value.Ok()
    ensures r.Ok? <==> file.Some? && (budget.None? || budget.value >= 3 + (file.value.readable + 4095) / 4096)
    ensures r.Ok? ==> r.value == Hex(d.Of(file.value.Readable()))
    ensures r.Ok? ==>
      var f := file.value;
      r.value == Hex(d.Of(f.data)) <==> f.readable == |f.data| || d.Of(f.Readable()) == d.Of(f.data)
    ensures file.Some? && file.value.readable < |file.value.data| ==>
      (r.Ok? <==> budget.None? || budget.value >= 3 + (file.value.readable + 4095) / 4096)
  {
    if file.None? {
      return Error("Cannot open file for hash calculation");
    }
    var stream := new InputStream(file.value);
    var ctx := new DigestContext(d.absorb, d.initial, budget);
    var created := ctx.Call();
    if !created {
      return Error("Failed to create EVP_MD_CTX");
    }
    var initialized := ctx.Call();
    if !initialized {
      return Error("Failed to initialize digest");
    }
    var updated := DigestStream(stream, ctx);
    if !updated {
      return Error("Failed to update digest");
    }
    var finished := ctx.Call();
    if !finished {
      return Error("Failed to finalize digest");
    }
    WholeFileExactly(file.value, d);
    var s := ToHex(d.finish(ctx.state));
    r := Ok(s);
  }
}
