/** The admin audit log: a hash chain over canonical entries, optionally signed. */
module AuditChain {
  import opened Text

  const SEP: char := '\U{1f}'

  type Key = seq<Byte>

  datatype Entry = Entry(
    number: nat, time: int, actor: string, action: string, target: string, detail: string,
    prevHash: string, hash: string, sig: string)

  /** SHA-256 in hexadecimal, HMAC in hexadecimal, and the RFC 3339 form of an instant. */
  datatype Crypto = Crypto(sha256: string -> string, hmac: (Key, string) -> string, rfc3339: int -> string)

  ghost predicate SepFree(s: string) {
    SEP !in s
  }

  /** What is used of them: separator-free text, no empty hash, and one form per instant. That
      hashes never collide is not assumed. */
  ghost predicate Sound(c: Crypto) {
    && (forall s :: c.sha256(s) != "" && SepFree(c.sha256(s)))
    && (forall t, u :: c.rfc3339(t) == c.rfc3339(u) ==> t == u)
    && (forall t :: SepFree(c.rfc3339(t)))
  }

  // ----- the canonical form -----

  function Fields(c: Crypto, e: Entry): (fs: seq<string>) {
    [FormatNat(e.number), c.rfc3339(e.time), e.actor, e.action, e.target, e.detail, e.prevHash]
  }

  function Joined(fs: seq<string>): (s: string) {
    if fs == [] then "" else if |fs| == 1 then fs[0] else fs[0] + ([SEP] + Joined(fs[1..]))
  }

  function Canonical(c: Crypto, e: Entry): (s: string) {
    Joined(Fields(c, e))
  }

  /** Two entries record the same action at the same place in the chain. */
  ghost predicate SameRecord(e: Entry, f: Entry) {
    e.(hash := "", sig := "") == f.(hash := "", sig := "")
  }

  /** The text an administrator's request supplies. */
  ghost predicate CleanText(e: Entry) {
    SepFree(e.actor) && SepFree(e.action) && SepFree(e.target) && SepFree(e.detail)
  }

  ghost predicate Clean(fs: seq<string>) {
    forall i :: 0 <= i < |fs| ==> SepFree(fs[i])
  }

  function SepCount(s: string): (n: nat) {
    if s == "" then 0 else (if s[0] == SEP then 1 else 0) + SepCount(s[1..])
  }

  lemma {:induction false} SepCountConcat(s: string, t: string)
    ensures SepCount(s + t) == SepCount(s) + SepCount(t)
  {
    if s == "" {
      assert s + t == t;
    } else {
      assert (s + t)[1..] == s[1..] + t;
      SepCountConcat(s[1..], t);
    }
  }

  lemma {:induction false} SepCountZero(s: string)
    ensures SepCount(s) == 0 <==> SepFree(s)
  {
    if s != "" {
      SepCountZero(s[1..]);
      assert s == [s[0]] + s[1..];
    }
  }

  /** A joined list holds one separator per gap, and more if and only if a field holds one. */
  lemma {:induction false} JoinedCount(fs: seq<string>)
    requires fs != []
    ensures SepCount(Joined(fs)) >= |fs| - 1
    ensures SepCount(Joined(fs)) == |fs| - 1 <==> Clean(fs)
  {
    SepCountZero(fs[0]);
    if |fs| > 1 {
      var rest := Joined(fs[1..]);
      JoinedCount(fs[1..]);
      SepCountConcat(fs[0], [SEP] + rest);
      assert ([SEP] + rest)[1..] == rest;
      assert fs == [fs[0]] + fs[1..];
    }
  }

  /** Separator-free fields are determined by their joined form. */
  lemma {:induction false} JoinedInjective(fs: seq<string>, gs: seq<string>)
    requires |fs| == |gs| && Clean(fs) && Clean(gs) && Joined(fs) == Joined(gs)
    ensures fs == gs
  {
    if |fs| > 1 {
      SplitUnique(fs[0], Joined(fs[1..]), gs[0], Joined(gs[1..]), SEP);
      JoinedInjective(fs[1..], gs[1..]);
      assert fs == [fs[0]] + fs[1..] && gs == [gs[0]] + gs[1..];
    }
  }

  lemma DigitsSepFree(n: nat)
    ensures SepFree(FormatNat(n))
  {
  }

  lemma FieldsClean(c: Crypto, e: Entry)
    requires Sound(c) && SepFree(e.prevHash)
    ensures Clean(Fields(c, e)) <==> CleanText(e)
  {
    DigitsSepFree(e.number);
    var fs := Fields(c, e);
    assert fs[2] == e.actor && fs[3] == e.action && fs[4] == e.target && fs[5] == e.detail;
  }

  /** Clean text: no other entry, clean or not, has the same canonical form. */
  lemma CleanIsUnambiguous(c: Crypto, e: Entry, f: Entry)
    requires Sound(c) && SepFree(e.prevHash) && SepFree(f.prevHash) && CleanText(e)
    requires Canonical(c, e) == Canonical(c, f)
    ensures SameRecord(e, f)
  {
    var fs, gs := Fields(c, e), Fields(c, f);
    FieldsClean(c, e);
    JoinedCount(fs);
    JoinedCount(gs);
    JoinedInjective(fs, gs);
    FieldsEqual(c, e, f);
  }

  lemma FieldsEqual(c: Crypto, e: Entry, f: Entry)
    requires Sound(c) && Fields(c, e) == Fields(c, f)
    ensures SameRecord(e, f)
  {
    var fs, gs := Fields(c, e), Fields(c, f);
    assert fs[0] == gs[0] && fs[1] == gs[1] && fs[2] == gs[2] && fs[3] == gs[3];
    assert fs[4] == gs[4] && fs[5] == gs[5] && fs[6] == gs[6];
    FormatNatInjective(e.number, f.number);
  }

  /** A separator inside a field can be read as the end of that field. */
  lemma {:induction false} ShiftRight(fs: seq<string>, k: nat, x: string, y: string)
    requires k + 1 < |fs| && fs[k] == x + ([SEP] + y)
    ensures Joined(fs) == Joined(fs[k := x][k + 1 := y + ([SEP] + fs[k + 1])])
    decreases k
  {
    var gs := fs[k := x][k + 1 := y + ([SEP] + fs[k + 1])];
    if k > 0 {
      ShiftRight(fs[1..], k - 1, x, y);
      assert gs[1..] == fs[1..][k - 1 := x][k := y + ([SEP] + fs[k + 1])];
    } else if |fs| == 2 {
      ShiftText(x, y, fs[1]);
      assert gs[1..] == [gs[1]] && fs[1..] == [fs[1]];
    } else {
      var rest := Joined(fs[2..]);
      assert fs[1..][1..] == fs[2..] && gs[1..][1..] == fs[2..];
      ShiftText(x, y, fs[1] + ([SEP] + rest));
      Assoc(y, [SEP] + fs[1], [SEP] + rest);
      Assoc([SEP], fs[1], [SEP] + rest);
    }
  }

  lemma ShiftText(x: string, y: string, z: string)
    ensures (x + ([SEP] + y)) + ([SEP] + z) == x + ([SEP] + (y + ([SEP] + z)))
  {
    Assoc(x, [SEP] + y, [SEP] + z);
    Assoc([SEP], y, [SEP] + z);
  }

  lemma SplitAt(s: string) returns (x: string, y: string)
    requires !SepFree(s)
    ensures s == x + ([SEP] + y)
  {
    var i :| 0 <= i < |s| && s[i] == SEP;
    x, y := s[..i], s[i + 1..];
  }

  /** Unclean text: some other entry has the same canonical form. */
  lemma UncleanIsAmbiguous(c: Crypto, e: Entry) returns (f: Entry)
    requires !CleanText(e)
    ensures !SameRecord(e, f) && f.prevHash == e.prevHash && Canonical(c, e) == Canonical(c, f)
  {
    if !SepFree(e.actor) {
      var x, y := SplitAt(e.actor);
      f := e.(actor := x, action := y + ([SEP] + e.action));
      ShiftRight(Fields(c, e), 2, x, y);
      assert Fields(c, e)[2 := x][3 := f.action] == Fields(c, f);
    } else if !SepFree(e.action) {
      var x, y := SplitAt(e.action);
      f := e.(actor := e.actor + ([SEP] + x), action := y);
      ShiftRight(Fields(c, f), 2, e.actor, x);
      assert Fields(c, f)[2 := e.actor][3 := e.action] == Fields(c, e);
    } else if !SepFree(e.target) {
      var x, y := SplitAt(e.target);
      f := e.(action := e.action + ([SEP] + x), target := y);
      ShiftRight(Fields(c, f), 3, e.action, x);
      assert Fields(c, f)[3 := e.action][4 := e.target] == Fields(c, e);
    } else {
      var x, y := SplitAt(e.detail);
      f := e.(target := e.target + ([SEP] + x), detail := y);
      ShiftRight(Fields(c, f), 4, e.target, x);
      assert Fields(c, f)[4 := e.target][5 := e.detail] == Fields(c, e);
    }
  }

  /** The canonical form identifies an entry exactly when no text field holds the separator. */
  lemma CanonicalIdentifies(c: Crypto, e: Entry)
    requires Sound(c) && SepFree(e.prevHash)
    ensures CleanText(e) <==>
      forall f: Entry :: SepFree(f.prevHash) && Canonical(c, f) == Canonical(c, e) ==> SameRecord(e, f)
  {
    if CleanText(e) {
      forall f: Entry | SepFree(f.prevHash) && Canonical(c, f) == Canonical(c, e) ensures SameRecord(e, f) {
        CleanIsUnambiguous(c, e, f);
      }
    } else {
      var f := UncleanIsAmbiguous(c, e);
    }
  }

  // ----- verifying a log -----

  datatype Fault = ChainBroken | HashMismatch | SignatureMismatch

  function FaultOf(c: Crypto, key: Key, e: Entry, prev: string): (r: Option<Fault>) {
    if e.prevHash != prev then Some(ChainBroken)
    else if c.sha256(Canonical(c, e)) != e.hash then Some(HashMismatch)
    else if key != [] && c.hmac(key, e.hash) != e.sig then Some(SignatureMismatch)
    else None
  }

  /** The hash entry i must link to. */
  function PrevHash(log: seq<Entry>, i: nat): (h: string)
    requires i <= |log|
  {
    if i == 0 then "" else log[i - 1].hash
  }

  function FinalHash(log: seq<Entry>): (h: string) {
    PrevHash(log, |log|)
  }

  function FaultAt(c: Crypto, key: Key, log: seq<Entry>, i: nat): (r: Option<Fault>)
    requires i < |log|
  {
    FaultOf(c, key, log[i], PrevHash(log, i))
  }

  /** Every entry links to the one before it, hashes to its contents and is signed. */
  ghost predicate Intact(c: Crypto, key: Key, log: seq<Entry>) {
    forall i :: 0 <= i < |log| ==> FaultAt(c, key, log, i) == None
  }

  /** Reports the first fault, if there is one. */
  method VerifyAuditChain(c: Crypto, key: Key, log: seq<Entry>) returns (r: Option<(nat, Fault)>)
    ensures r.None? <==> Intact(c, key, log)
    ensures r.Some? ==>
      && r.value.0 < |log| && FaultAt(c, key, log, r.value.0) == Some(r.value.1)
      && forall j :: 0 <= j < r.value.0 ==> FaultAt(c, key, log, j) == None
  {
    var prev := "";
    for i := 0 to |log|
      invariant prev == PrevHash(log, i)
      invariant forall j :: 0 <= j < i ==> FaultAt(c, key, log, j) == None
    {
      var entry := log[i];
      var fault := FaultOf(c, key, entry, prev);
      assert fault == FaultAt(c, key, log, i);
      if fault.Some? {
        return Some((i, fault.value));
      }
      prev := entry.hash;
    }
    return None;
  }

  lemma PrefixIntact(c: Crypto, key: Key, log: seq<Entry>, n: nat)
    requires n <= |log| && Intact(c, key, log)
    ensures Intact(c, key, log[..n])
  {
    forall j | 0 <= j < n ensures FaultAt(c, key, log[..n], j) == None {
      assert FaultAt(c, key, log, j) == None;
    }
  }

  /** Appending a faultless entry keeps a log intact. */
  lemma AppendIntact(c: Crypto, key: Key, log: seq<Entry>, e: Entry)
    requires Intact(c, key, log) && FaultOf(c, key, e, FinalHash(log)) == None
    ensures Intact(c, key, log + [e])
  {
    var more := log + [e];
    forall i | 0 <= i < |more| ensures FaultAt(c, key, more, i) == None {
      if i < |log| { assert FaultAt(c, key, log, i) == None; }
    }
  }

  // ----- writing a log -----

  class AuditLog {
    const crypto: Crypto
    const key: Key
    var number: nat
    var prev: string
    ghost var written: seq<Entry>

    /** Everything written so far verifies under the log's own key. */
    ghost predicate Valid()
      reads this
    {
      Intact(crypto, key, written) && prev == FinalHash(written)
    }

    constructor (crypto: Crypto, key: Key)
      ensures Valid() && written == [] && this.crypto == crypto && this.key == key && number == 0
    {
      this.crypto, this.key := crypto, key;
      number, prev, written := 0, "", [];
    }

    method Record(now: int, actor: string, action: string, target: string, detail: string)
      returns (entry: Entry)
      requires Valid()
      modifies this
      ensures Valid() && written == old(written) + [entry]
      ensures number == (old(number) + 1) % 0x1_0000_0000_0000_0000
      ensures SameRecord(entry, Entry(number, now, actor, action, target, detail, old(prev), "", ""))
      ensures entry.hash == prev && (key == [] ==> entry.sig == "")
    {
      number := (number + 1) % 0x1_0000_0000_0000_0000;
      entry := Entry(number, now, actor, action, target, detail, prev, "", "");
      entry := entry.(hash := crypto.sha256(Canonical(crypto, entry)));
      if |key| > 0 {
        entry := entry.(sig := crypto.hmac(key, entry.hash));
      }
      assert FaultOf(crypto, key, entry, prev) == None;
      AppendIntact(crypto, key, written, entry);
      written := written + [entry];
      prev := entry.hash;
    }
  }

  // ----- what a verified final hash commits to -----

  ghost predicate AgreesWith(key: Key, e: Entry, f: Entry) {
    SameRecord(e, f) && e.hash == f.hash && (key != [] ==> e.sig == f.sig)
  }

  lemma HashesSepFree(c: Crypto, key: Key, log: seq<Entry>)
    requires Sound(c) && Intact(c, key, log)
    ensures SepFree(FinalHash(log)) && (FinalHash(log) == "" <==> log == [])
  {
    if log != [] {
      assert FaultAt(c, key, log, |log| - 1) == None;
    }
  }

  lemma LastIntact(c: Crypto, key: Key, log: seq<Entry>)
    requires Sound(c) && log != [] && Intact(c, key, log)
    ensures Intact(c, key, Init(log)) && FaultOf(c, key, Last(log), FinalHash(Init(log))) == None
    ensures SepFree(Last(log).prevHash)
  {
    PrefixIntact(c, key, log, |log| - 1);
    assert FaultAt(c, key, log, |log| - 1) == None;
    HashesSepFree(c, key, Init(log));
  }

  /** Different canonical texts with one hash. */
  ghost predicate Collision(c: Crypto, e: Entry, f: Entry) {
    Canonical(c, e) != Canonical(c, f) && c.sha256(Canonical(c, e)) == c.sha256(Canonical(c, f))
  }

  /** Counted from the end, the k-th entries collide. */
  ghost predicate CollideAt(c: Crypto, a: seq<Entry>, b: seq<Entry>, k: nat) {
    k < |a| && k < |b| && Collision(c, a[|a| - 1 - k], b[|b| - 1 - k])
  }

  ghost predicate Collide(c: Crypto, a: seq<Entry>, b: seq<Entry>) {
    exists k :: CollideAt(c, a, b, k)
  }

  lemma CollideEarlier(c: Crypto, a: seq<Entry>, b: seq<Entry>)
    requires a != [] && b != [] && Collide(c, Init(a), Init(b))
    ensures Collide(c, a, b)
  {
    var k: nat :| CollideAt(c, Init(a), Init(b), k);
    assert a[|a| - 2 - k] == Init(a)[|Init(a)| - 1 - k] && b[|b| - 2 - k] == Init(b)[|Init(b)| - 1 - k];
    assert CollideAt(c, a, b, k + 1);
  }

  /** Last entries under one final hash have one canonical text, or there is a collision. */
  lemma LastTexts(c: Crypto, key: Key, a: seq<Entry>, b: seq<Entry>)
    requires Sound(c) && a != [] && b != [] && Intact(c, key, a) && Intact(c, key, b)
    requires FinalHash(a) == FinalHash(b) && !Collide(c, a, b)
    ensures Canonical(c, Last(a)) == Canonical(c, Last(b))
  {
    LastIntact(c, key, a);
    LastIntact(c, key, b);
    assert !CollideAt(c, a, b, 0);
  }

  /** The last entries agree when the final hashes do. */
  lemma LastAgrees(c: Crypto, key: Key, a: seq<Entry>, b: seq<Entry>)
    requires Sound(c) && a != [] && b != [] && Intact(c, key, a) && Intact(c, key, b)
    requires CleanText(Last(a)) && FinalHash(a) == FinalHash(b) && !Collide(c, a, b)
    ensures AgreesWith(key, Last(a), Last(b)) && FinalHash(Init(a)) == FinalHash(Init(b))
  {
    LastIntact(c, key, a);
    LastIntact(c, key, b);
    LastTexts(c, key, a, b);
    CleanIsUnambiguous(c, Last(a), Last(b));
  }

  ghost predicate AllClean(log: seq<Entry>) {
    forall i :: 0 <= i < |log| ==> CleanText(log[i])
  }

  ghost predicate LogsAgree(key: Key, a: seq<Entry>, b: seq<Entry>) {
    |a| == |b| && forall i :: 0 <= i < |a| ==> AgreesWith(key, a[i], b[i])
  }

  lemma AgreeOneMore(key: Key, a: seq<Entry>, b: seq<Entry>)
    requires a != [] && b != [] && LogsAgree(key, Init(a), Init(b)) && AgreesWith(key, Last(a), Last(b))
    ensures LogsAgree(key, a, b)
  {
    forall i | 0 <= i < |a| ensures AgreesWith(key, a[i], b[i]) {
      if i < |a| - 1 { assert a[i] == Init(a)[i] && b[i] == Init(b)[i]; }
    }
  }

  /** A verified log with separator-free text is the only verified log with its final hash, or
      the two hold a collision. */
  lemma {:induction false} FinalHashCommits(c: Crypto, key: Key, a: seq<Entry>, b: seq<Entry>)
    requires Sound(c) && Intact(c, key, a) && Intact(c, key, b) && FinalHash(a) == FinalHash(b)
    requires AllClean(a)
    ensures LogsAgree(key, a, b) || Collide(c, a, b)
    decreases |a|
  {
    HashesSepFree(c, key, a);
    HashesSepFree(c, key, b);
    if a != [] && b != [] && !Collide(c, a, b) {
      LastAgrees(c, key, a, b);
      LastIntact(c, key, a);
      LastIntact(c, key, b);
      FinalHashCommits(c, key, Init(a), Init(b));
      if Collide(c, Init(a), Init(b)) { CollideEarlier(c, a, b); } else { AgreeOneMore(key, a, b); }
    }
  }

  /** Replacing an entry by another of the same canonical form, hash and signature goes unnoticed. */
  lemma SwapVerifies(c: Crypto, key: Key, log: seq<Entry>, i: nat, f: Entry)
    requires Intact(c, key, log) && i < |log| && Canonical(c, f) == Canonical(c, log[i])
    requires f.prevHash == log[i].prevHash && f.hash == log[i].hash && f.sig == log[i].sig
    ensures Intact(c, key, log[i := f]) && FinalHash(log[i := f]) == FinalHash(log)
  {
    var swapped := log[i := f];
    forall j | 0 <= j < |log| ensures FaultAt(c, key, swapped, j) == None {
      assert FaultAt(c, key, log, j) == None;
    }
  }

  lemma SwapCollidesNowhere(c: Crypto, log: seq<Entry>, i: nat, f: Entry)
    requires i < |log| && Canonical(c, f) == Canonical(c, log[i])
    ensures !Collide(c, log, log[i := f])
  {
    forall j: nat | j < |log| ensures !Collision(c, log[j], log[i := f][j]) {}
  }

  /** Hash and signature are not part of the canonical text. */
  lemma SameText(c: Crypto, e: Entry, f: Entry)
    requires SameRecord(e, f)
    ensures Canonical(c, e) == Canonical(c, f)
  {
    assert Fields(c, e) == Fields(c, f);
  }

  /** Any other verified log with this final hash comes with a collision. */
  ghost predicate Committed(c: Crypto, key: Key, a: seq<Entry>) {
    forall b :: Intact(c, key, b) && FinalHash(b) == FinalHash(a) ==> LogsAgree(key, a, b) || Collide(c, a, b)
  }

  /** The final hash of a verified log commits to it exactly when its text is separator-free. */
  lemma CommittedExactly(c: Crypto, key: Key, a: seq<Entry>)
    requires Sound(c) && Intact(c, key, a)
    ensures Committed(c, key, a) <==> AllClean(a)
  {
    if AllClean(a) {
      forall b | Intact(c, key, b) && FinalHash(b) == FinalHash(a) ensures LogsAgree(key, a, b) || Collide(c, a, b) {
        FinalHashCommits(c, key, a, b);
      }
    } else {
      var i :| 0 <= i < |a| && !CleanText(a[i]);
      var f := UncleanIsAmbiguous(c, a[i]);
      var g := f.(hash := a[i].hash, sig := a[i].sig);
      SameText(c, f, g);
      SwapVerifies(c, key, a, i, g);
      SwapCollidesNowhere(c, a, i, g);
      var b := a[i := g];
      assert !AgreesWith(key, a[i], b[i]);
    }
  }

  /** The last field ends a joined list. */
  lemma {:induction false} JoinedLast(fs: seq<string>)
    requires |fs| > 1
    ensures Joined(fs) == Joined(Init(fs)) + [SEP] + Last(fs)
  {
    if |fs| == 2 {
      assert fs[1..] == [fs[1]] && Init(fs) == [fs[0]];
      Assoc(fs[0], [SEP], fs[1]);
    } else {
      JoinedLast(fs[1..]);
      assert Init(fs)[1..] == Init(fs[1..]);
      MoveOut(fs[0], Joined(Init(fs[1..])), Last(fs));
    }
  }

  lemma MoveOut(x: string, y: string, z: string)
    ensures x + ([SEP] + (y + [SEP] + z)) == (x + ([SEP] + y)) + [SEP] + z
  {
  }

  /** Clean or not, entries with one canonical form link to the same place. */
  lemma SameLink(c: Crypto, e: Entry, f: Entry)
    requires SepFree(e.prevHash) && SepFree(f.prevHash) && Canonical(c, e) == Canonical(c, f)
    ensures e.prevHash == f.prevHash
  {
    var fs, gs := Fields(c, e), Fields(c, f);
    JoinedLast(fs);
    JoinedLast(gs);
    SplitLastUnique(Joined(Init(fs)), e.prevHash, Joined(Init(gs)), f.prevHash, SEP);
  }

  /** Clean or not, verified logs with one final hash are equally long, or hold a collision. */
  lemma {:induction false} SameLength(c: Crypto, key: Key, a: seq<Entry>, b: seq<Entry>)
    requires Sound(c) && Intact(c, key, a) && Intact(c, key, b) && FinalHash(a) == FinalHash(b)
    ensures |a| == |b| || Collide(c, a, b)
    decreases |a|
  {
    HashesSepFree(c, key, a);
    HashesSepFree(c, key, b);
    if a != [] && b != [] && !Collide(c, a, b) {
      LastIntact(c, key, a);
      LastIntact(c, key, b);
      LastTexts(c, key, a, b);
      SameLink(c, Last(a), Last(b));
      SameLength(c, key, Init(a), Init(b));
      if Collide(c, Init(a), Init(b)) { CollideEarlier(c, a, b); }
    }
  }

  /** Cutting entries off the end still verifies, and changes the final hash unless the log
      holds a collision. */
  lemma TruncationVerifies(c: Crypto, key: Key, log: seq<Entry>, n: nat)
    requires Sound(c) && Intact(c, key, log) && n <= |log|
    ensures Intact(c, key, log[..n])
    ensures n == |log| ==> FinalHash(log[..n]) == FinalHash(log)
    ensures FinalHash(log[..n]) == FinalHash(log) ==> n == |log| || Collide(c, log, log[..n])
  {
    PrefixIntact(c, key, log, n);
    assert log[..|log|] == log;
    if FinalHash(log[..n]) == FinalHash(log) { SameLength(c, key, log, log[..n]); }
  }

  /** Two instances appending to one file: the second starts a new chain, which does not verify. */
  lemma RestartBreaksChain(c: Crypto, key: Key, a: seq<Entry>, b: seq<Entry>)
    requires Sound(c) && Intact(c, key, a) && Intact(c, key, b)
    ensures Intact(c, key, a + b) <==> a == [] || b == []
  {
    HashesSepFree(c, key, a);
    if a == [] {
      assert a + b == b;
    } else if b == [] {
      assert a + b == a;
    } else {
      assert FaultAt(c, key, b, 0) == None;
      assert FaultAt(c, key, a + b, |a|) == Some(ChainBroken);
    }
  }
}
