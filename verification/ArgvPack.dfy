/** The argument vector on the wire: the kernel's packing loop and the agent's unpacking. */
module ArgvPack {
  import opened Text

  const MAX_ARGS_LEN := 512
  const MAX_ARGV_COUNT := 32

  /** A C string: bytes without a NUL. */
  type CString = s: seq<Byte> | forall i :: 0 <= i < |s| ==> s[i] != 0 witness []

  /** An argument as the kernel reads it: None when its pointer or its text cannot be read. */
  type Argv = seq<Option<CString>>

  // ----- specification -----

  function Fits(s: CString, room: nat): (r: CString)
    ensures r <= s && (|s| < room ==> r == s) && (room > 0 ==> |r| < room)
  {
    if |s| < room then s else if room == 0 then [] else s[..room - 1]
  }

  predicate Stops(argv: Argv, off: nat, i: nat) {
    i >= MAX_ARGV_COUNT || argv == [] || argv[0].None? || off >= MAX_ARGS_LEN - 1
  }

  /** The strings packed from the remaining arguments, i having been seen, into a buffer
      filled up to off. */
  function Packed(argv: Argv, off: nat, i: nat): (ss: seq<CString>)
    decreases |argv|
  {
    if Stops(argv, off, i) then []
    else
      var s := Fits(argv[0].value, MAX_ARGS_LEN - off);
      [s] + Packed(argv[1..], off + |s| + 1, i + 1)
  }

  /** The strings, each followed by a NUL. */
  function Blob(ss: seq<CString>): (b: seq<Byte>) {
    if ss == [] then [] else ss[0] + ([0] + Blob(ss[1..]))
  }

  /** Every packed string is the start of its argument, and all but the last are whole. */
  ghost predicate PrefixOf(ss: seq<CString>, argv: Argv) {
    && |ss| <= |argv|
    && (forall j :: 0 <= j < |ss| ==> argv[j].Some? && ss[j] <= argv[j].value)
    && (forall j :: 0 <= j < |ss| - 1 ==> argv[j] == Some(ss[j]))
  }

  /** A prefix of at most 32 arguments, complete except perhaps for the last. */
  lemma {:induction false} PackedIsPrefix(argv: Argv, off: nat, i: nat)
    requires off <= MAX_ARGS_LEN && i <= MAX_ARGV_COUNT
    ensures i + |Packed(argv, off, i)| <= MAX_ARGV_COUNT
    ensures off + |Blob(Packed(argv, off, i))| <= MAX_ARGS_LEN
    ensures PrefixOf(Packed(argv, off, i), argv)
    decreases |argv|
  {
    if !Stops(argv, off, i) {
      var s := Fits(argv[0].value, MAX_ARGS_LEN - off);
      PackedIsPrefix(argv[1..], off + |s| + 1, i + 1);
      PrefixCons(argv, s, Packed(argv[1..], off + |s| + 1, i + 1));
    }
  }

  lemma PrefixCons(argv: Argv, s: CString, rest: seq<CString>)
    requires argv != [] && argv[0].Some? && s <= argv[0].value && (rest != [] ==> s == argv[0].value)
    requires PrefixOf(rest, argv[1..])
    ensures PrefixOf([s] + rest, argv) && |Blob([s] + rest)| == |s| + 1 + |Blob(rest)|
  {
    var ss := [s] + rest;
    assert ss[1..] == rest;
    forall j | 0 <= j < |ss| ensures argv[j].Some? && ss[j] <= argv[j].value {
      if j > 0 { assert ss[j] == rest[j - 1] && argv[j] == argv[1..][j - 1]; }
    }
    forall j | 0 <= j < |ss| - 1 ensures argv[j] == Some(ss[j]) {
      if j > 0 { assert ss[j] == rest[j - 1] && argv[j] == argv[1..][j - 1]; }
    }
  }

  // ----- the packing loop (bpf/edr.bpf.c) -----

  /** bpf_probe_read_user_str into buf[off..off + room]: the string, cut to fit, and a NUL. */
  method ReadUserStr(buf: array<Byte>, off: nat, room: nat, s: CString) returns (n: nat)
    requires off + room <= buf.Length && room > 0
    modifies buf
    ensures n == |Fits(s, room)| + 1 <= room
    ensures buf[..off + n] == old(buf[..off]) + (Fits(s, room) + [0])
    ensures buf[off + n..] == old(buf[off + n..])
  {
    var t := Fits(s, room);
    n := |t| + 1;
    for k := 0 to |t|
      invariant forall j :: 0 <= j < k ==> buf[off + j] == t[j]
      invariant forall j :: 0 <= j < off || off + k <= j < buf.Length ==> buf[j] == old(buf[j])
    {
      buf[off + k] := t[k];
    }
    buf[off + |t|] := 0;
  }

  /** x & y, bit by bit. */
  function BitAnd(x: nat, y: nat): (r: nat) {
    if x == 0 || y == 0 then 0 else 2 * BitAnd(x / 2, y / 2) + (if x % 2 == 1 && y % 2 == 1 then 1 else 0)
  }

  function PowerOfTwo(k: nat): (n: nat)
    ensures n > 0
  {
    if k == 0 then 1 else 2 * PowerOfTwo(k - 1)
  }

  lemma {:induction false} MaskKeepsBelow(x: nat, k: nat)
    requires x < PowerOfTwo(k)
    ensures BitAnd(x, PowerOfTwo(k) - 1) == x
  {
    if k > 0 { MaskKeepsBelow(x / 2, k - 1); }
  }

  /** off & (MAX_ARGS_LEN - 1): an offset inside the buffer is its own masked value. */
  method Mask(off: nat) returns (r: nat)
    requires off < MAX_ARGS_LEN
    ensures r == off
  {
    assert PowerOfTwo(4) == 16;
    assert PowerOfTwo(9) == MAX_ARGS_LEN;
    MaskKeepsBelow(off, 9);
    r := BitAnd(off, MAX_ARGS_LEN - 1);
  }

  /** The packing loop. The mask never changes the offset, the offset never leaves the
      buffer, and the used bytes are the packed strings. */
  method Pack(argv: Argv) returns (buf: array<Byte>, len: nat)
    ensures fresh(buf) && buf.Length == MAX_ARGS_LEN && len <= MAX_ARGS_LEN
    ensures buf[..len] == Blob(Packed(argv, 0, 0))
  {
    buf := new Byte[MAX_ARGS_LEN](_ => 0);
    var off: nat := 0;
    ghost var done: seq<CString> := [];
    assert argv[0..] == argv && done + Packed(argv, 0, 0) == Packed(argv, 0, 0);
    for i := 0 to MAX_ARGV_COUNT
      invariant fresh(buf) && buf.Length == MAX_ARGS_LEN && off <= MAX_ARGS_LEN && i <= |argv|
      invariant buf[..off] == Blob(done)
      invariant done + Packed(argv[i..], off, i) == Packed(argv, 0, 0)
    {
      if i >= |argv| || argv[i].None? { break; }
      if off >= MAX_ARGS_LEN - 1 { break; }
      off := Mask(off);
      ghost var s := Fits(argv[i].value, MAX_ARGS_LEN - off);
      PackedStep(argv, off, i);
      var n := ReadUserStr(buf, off, MAX_ARGS_LEN - off, argv[i].value);
      PackStep(done, s, Packed(argv[i + 1..], off + n, i + 1));
      off, done := off + n, done + [s];
    }
    assert done + [] == done;
    len := off;
  }

  lemma PackedStep(argv: Argv, off: nat, i: nat)
    requires i < |argv| && !Stops(argv[i..], off, i)
    ensures
      var s := Fits(argv[i].value, MAX_ARGS_LEN - off);
      Packed(argv[i..], off, i) == [s] + Packed(argv[i + 1..], off + |s| + 1, i + 1)
  {
    assert argv[i..][1..] == argv[i + 1..];
  }

  lemma PackStep(done: seq<CString>, s: CString, rest: seq<CString>)
    ensures done + ([s] + rest) == (done + [s]) + rest
    ensures Blob(done + [s]) == Blob(done) + (s + [0])
  {
    BlobSnoc(done, s);
  }

  lemma {:induction false} BlobSnoc(ss: seq<CString>, s: CString)
    ensures Blob(ss + [s]) == Blob(ss) + (s + [0])
  {
    if ss == [] {
      assert ss + [s] == [s] && Blob([s][1..]) == [];
    } else {
      assert (ss + [s])[1..] == ss[1..] + [s] && (ss + [s])[0] == ss[0];
      BlobSnoc(ss[1..], s);
      assert ss[0] + ([0] + (Blob(ss[1..]) + (s + [0]))) == (ss[0] + ([0] + Blob(ss[1..]))) + (s + [0]);
    }
  }

  // ----- unpacking (internal/decode/wire.go) -----

  function NonEmpty(parts: seq<seq<Byte>>): (r: seq<seq<Byte>>)
    ensures |r| <= |parts|
  {
    if parts == [] then []
    else NonEmpty(parts[..|parts| - 1]) + (if parts[|parts| - 1] == [] then [] else [parts[|parts| - 1]])
  }

  /** parseArgs: the parts are filtered in place, through the front of their own array. */
  method ParseArgs(blob: seq<Byte>, used: nat) returns (args: seq<seq<Byte>>)
    ensures args == NonEmpty(SplitOn(0, [], if used < |blob| then blob[..used] else blob))
  {
    var split := SplitOn(0, [], if used < |blob| then blob[..used] else blob);
    var parts := new seq<Byte>[|split|](i requires 0 <= i < |split| => split[i]);
    var n := 0;
    for i := 0 to |split|
      invariant n == |NonEmpty(split[..i])| <= i
      invariant forall k :: 0 <= k < n ==> parts[k] == NonEmpty(split[..i])[k]
      invariant forall k :: i <= k < |split| ==> parts[k] == split[k]
    {
      assert split[..i + 1][..i] == split[..i];
      var p := parts[i];
      if p != [] {
        parts[n] := p;
        n := n + 1;
      }
    }
    assert split[..|split|] == split;
    args := parts[..n];
  }

  // ----- the round trip -----

  function Plain(ss: seq<CString>): (r: seq<seq<Byte>>)
    ensures |r| == |ss| && forall i :: 0 <= i < |ss| ==> r[i] == ss[i]
  {
    seq(|ss|, i requires 0 <= i < |ss| => ss[i])
  }

  lemma {:induction false} SplitBlob(ss: seq<CString>)
    ensures SplitOn(0, [], Blob(ss)) == Plain(ss) + [[]]
  {
    if ss != [] {
      SplitOnOne(0, [], ss[0], Blob(ss[1..]));
      SplitBlob(ss[1..]);
      assert [] + ss[0] == ss[0];
      assert Plain(ss) == [ss[0]] + Plain(ss[1..]);
    }
  }

  /** Unpacking what was packed gives, in order, the non-empty strings of the packed prefix. */
  lemma UnpackPacked(argv: Argv, blob: seq<Byte>, used: nat)
    requires used <= |blob| && blob[..used] == Blob(Packed(argv, 0, 0))
    ensures NonEmpty(SplitOn(0, [], if used < |blob| then blob[..used] else blob)) ==
            NonEmpty(Plain(Packed(argv, 0, 0)))
  {
    assert used == |blob| ==> blob[..used] == blob;
    var ss := Packed(argv, 0, 0);
    SplitBlob(ss);
    assert (Plain(ss) + [[]])[..|ss|] == Plain(ss);
  }

  /** The whole way from the kernel's loop to the agent's arguments. */
  method RoundTrip(argv: Argv) returns (args: seq<seq<Byte>>)
    ensures args == NonEmpty(Plain(Packed(argv, 0, 0)))
    ensures |Packed(argv, 0, 0)| <= MAX_ARGV_COUNT && PrefixOf(Packed(argv, 0, 0), argv)
    ensures AllRead(argv) && args == Plain(Texts(argv)) <==> FitsWhole(argv)
  {
    var buf, len := Pack(argv);
    var blob := buf[..];
    args := ParseArgs(blob, len);
    assert blob[..len] == buf[..len];
    UnpackPacked(argv, blob, len);
    PackedIsPrefix(argv, 0, 0);
    WholeExactly(argv);
  }

  // ----- when nothing is lost -----

  predicate AllRead(argv: Argv) {
    forall j :: 0 <= j < |argv| ==> argv[j].Some?
  }

  function Texts(argv: Argv): (ss: seq<CString>)
    requires AllRead(argv)
    ensures |ss| == |argv| && forall j :: 0 <= j < |argv| ==> ss[j] == argv[j].value
  {
    seq(|argv|, j requires 0 <= j < |argv| => argv[j].value)
  }

  /** At most 32 arguments, all readable, none empty, and together with their NULs no longer
      than the buffer. */
  predicate FitsWhole(argv: Argv) {
    && AllRead(argv) && |argv| <= MAX_ARGV_COUNT && |Blob(Texts(argv))| <= MAX_ARGS_LEN
    && forall j :: 0 <= j < |argv| ==> argv[j].value != []
  }

  lemma {:induction false} PackedWhole(argv: Argv, off: nat, i: nat)
    requires AllRead(argv) && (forall j :: 0 <= j < |argv| ==> argv[j].value != [])
    requires i + |argv| <= MAX_ARGV_COUNT && off + |Blob(Texts(argv))| <= MAX_ARGS_LEN
    ensures Packed(argv, off, i) == Texts(argv)
    decreases |argv|
  {
    if argv != [] {
      assert Texts(argv)[1..] == Texts(argv[1..]) && argv[0].value != [];
      PackedWhole(argv[1..], off + |argv[0].value| + 1, i + 1);
      assert Texts(argv) == [argv[0].value] + Texts(argv[1..]);
    }
  }

  lemma {:induction false} NothingDropped(parts: seq<seq<Byte>>)
    ensures |NonEmpty(parts)| == |parts| <==> [] !in parts
    ensures [] !in parts ==> NonEmpty(parts) == parts
    decreases |parts|
  {
    if parts != [] {
      InitLast(parts);
      NothingDropped(parts[..|parts| - 1]);
    }
  }

  /** Nothing dropped, and nothing cut. */
  lemma NothingMissing(argv: Argv, ss: seq<CString>)
    requires AllRead(argv) && |ss| <= |argv| && NonEmpty(Plain(ss)) == Plain(Texts(argv))
    ensures ss == Texts(argv) && [] !in Plain(ss)
  {
    NothingDropped(Plain(ss));
    assert Plain(ss) == Plain(Texts(argv));
    assert forall j :: 0 <= j < |ss| ==> ss[j] == Plain(ss)[j] == Plain(Texts(argv))[j] == Texts(argv)[j];
  }

  lemma SeenWhole(argv: Argv)
    requires AllRead(argv) && NonEmpty(Plain(Packed(argv, 0, 0))) == Plain(Texts(argv))
    ensures FitsWhole(argv)
  {
    PackedIsPrefix(argv, 0, 0);
    NothingMissing(argv, Packed(argv, 0, 0));
    forall j | 0 <= j < |argv| ensures argv[j].value != [] {
      assert Plain(Texts(argv))[j] == argv[j].value && Plain(Texts(argv))[j] in Plain(Texts(argv));
    }
  }

  /** The agent sees the whole vector exactly when it fits whole. */
  lemma WholeExactly(argv: Argv)
    ensures AllRead(argv) && NonEmpty(Plain(Packed(argv, 0, 0))) == Plain(Texts(argv)) <==> FitsWhole(argv)
  {
    if FitsWhole(argv) {
      PackedWhole(argv, 0, 0);
      NothingDropped(Plain(Texts(argv)));
    } else if AllRead(argv) && NonEmpty(Plain(Packed(argv, 0, 0))) == Plain(Texts(argv)) {
      SeenWhole(argv);
    }
  }
}
