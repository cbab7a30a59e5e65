/** Response playbooks and the store that holds them. */
module Playbooks {
  import opened Text
  import opened Sorting

  datatype Mode = ModeOff | ModeDryRun | ModeEnforce

  datatype StepType = Notify | OpenCase | RunHunt | KillProcess | Quarantine | Unknown(name: string)

  datatype Step = Step(kind: StepType, query: string)

  datatype Trigger = Trigger(
    ruleIDs: seq<string>, severities: seq<string>, techniques: seq<string>, minRisk: int, incidentsOnly: bool)

  datatype Playbook = Playbook(id: string, name: string, mode: Mode, trigger: Trigger, steps: seq<Step>)

  /** A playbook as it is submitted. */
  datatype Draft = Draft(name: string, mode: string, trigger: Trigger, steps: seq<Step>)

  // ----- validation -----

  /** An unset mode is a dry run. */
  function ParseMode(mode: string): (m: Option<Mode>) {
    match mode
    case "" => Some(ModeDryRun)
    case "off" => Some(ModeOff)
    case "dry-run" => Some(ModeDryRun)
    case "enforce" => Some(ModeEnforce)
    case _ => None
  }

  predicate ValidStep(s: Step) {
    !s.kind.Unknown? && (s.kind == RunHunt ==> TrimSpace(s.query) != "")
  }

  predicate ValidSteps(steps: seq<Step>) {
    steps != [] && forall i :: 0 <= i < |steps| ==> ValidStep(steps[i])
  }

  predicate ValidDraft(d: Draft) {
    TrimSpace(d.name) != "" && ParseMode(d.mode).Some? && ValidSteps(d.steps)
  }

  method Validate(d: Draft) returns (ok: bool)
    ensures ok == ValidDraft(d)
  {
    if TrimSpace(d.name) == "" || ParseMode(d.mode).None? || |d.steps| == 0 { return false; }
    for i := 0 to |d.steps|
      invariant forall j :: 0 <= j < i ==> ValidStep(d.steps[j])
    {
      if d.steps[i].kind.Unknown? { return false; }
      if d.steps[i].kind == RunHunt && TrimSpace(d.steps[i].query) == "" { return false; }
    }
    return true;
  }

  // ----- identifiers -----

  /** fmt.Sprintf("PB-%04d", n) */
  function PlaybookId(n: nat): (id: string) {
    "PB-" + Padded(n)
  }

  /** At least four digits. */
  function Padded(n: nat): (s: string) {
    Zeros(4 - |FormatNat(n)|) + FormatNat(n)
  }

  lemma PaddedParses(n: nat)
    ensures AllDigits(Padded(n)) && ParseNat(Padded(n)) == n
  {
    LeadingZeros(4 - |FormatNat(n)|, FormatNat(n));
  }

  function Zeros(k: int): (s: string)
    ensures forall i :: 0 <= i < |s| ==> s[i] == '0'
  {
    if k <= 0 then "" else "0" + Zeros(k - 1)
  }

  lemma {:induction false} LeadingZeros(k: int, s: string)
    requires forall i :: 0 <= i < |s| ==> IsDigit(s[i])
    ensures forall i :: 0 <= i < |Zeros(k) + s| ==> IsDigit((Zeros(k) + s)[i])
    ensures ParseNat(Zeros(k) + s) == ParseNat(s)
    decreases |s|
  {
    if s == "" {
      assert Zeros(k) + s == Zeros(k);
      ZerosAreZero(k);
    } else {
      var n := |s| - 1;
      LeadingZeros(k, s[..n]);
      var t := Zeros(k) + s;
      assert t[..|t| - 1] == Zeros(k) + s[..n] && t[|t| - 1] == s[n];
    }
  }

  lemma {:induction false} ZerosAreZero(k: int)
    ensures ParseNat(Zeros(k)) == 0
    decreases k
  {
    if k > 0 {
      ZerosAreZero(k - 1);
      ZerosSnoc(k);
      assert (Zeros(k - 1) + "0")[..|Zeros(k - 1)|] == Zeros(k - 1);
    }
  }

  lemma {:induction false} ZerosSnoc(k: int)
    requires k > 0
    ensures Zeros(k) == Zeros(k - 1) + "0"
    decreases k
  {
    if k > 1 {
      ZerosSnoc(k - 1);
      Assoc("0", Zeros(k - 2), "0");
    }
  }

  /** No identifier is ever given twice. */
  lemma PlaybookIdInjective(m: nat, n: nat)
    requires PlaybookId(m) == PlaybookId(n)
    ensures m == n
  {
    PaddedParses(m);
    PaddedParses(n);
    assert PlaybookId(m)[3..] == Padded(m) && PlaybookId(n)[3..] == Padded(n);
  }

  // ----- the store -----

  datatype Library = Library(counter: nat, byID: map<string, Playbook>)

  const EMPTY_LIBRARY := Library(0, map[])

  function Stored(id: string, d: Draft): (p: Playbook)
    requires ValidDraft(d)
  {
    Playbook(id, d.name, ParseMode(d.mode).value, d.trigger, d.steps)
  }

  function Created(l: Library, d: Draft): (l': Library) {
    if !ValidDraft(d) then l
    else Library(l.counter + 1, l.byID[PlaybookId(l.counter + 1) := Stored(PlaybookId(l.counter + 1), d)])
  }

  function Updated(l: Library, id: string, d: Draft): (l': Library) {
    if !ValidDraft(d) || id !in l.byID then l else l.(byID := l.byID[id := Stored(id, d)])
  }

  function Deleted(l: Library, id: string): (l': Library) {
    l.(byID := l.byID - {id})
  }

  /** Playbooks are filed under their own identifiers, which the counter has given out, and
      have been validated. */
  ghost predicate Sound(l: Library) {
    forall id :: id in l.byID ==> l.byID[id].id == id && Given(l.counter, id) && ValidSteps(l.byID[id].steps)
  }

  ghost predicate Given(counter: nat, id: string) {
    exists n: nat :: n <= counter && id == PlaybookId(n)
  }

  lemma GivenGrows(counter: nat, id: string)
    requires Given(counter, id)
    ensures Given(counter + 1, id)
  {
    var n: nat :| n <= counter && id == PlaybookId(n);
    assert n <= counter + 1 && id == PlaybookId(n);
  }

  /** Creating never replaces a playbook. */
  lemma CreateIsNew(l: Library)
    requires Sound(l)
    ensures PlaybookId(l.counter + 1) !in l.byID
  {
    var id := PlaybookId(l.counter + 1);
    if id in l.byID {
      var n: nat :| n <= l.counter && id == PlaybookId(n);
      PlaybookIdInjective(l.counter + 1, n);
    }
  }

  lemma CreateKeeps(l: Library, d: Draft)
    requires Sound(l)
    ensures Sound(Created(l, d))
    ensures forall id :: id in l.byID ==> id in Created(l, d).byID && Created(l, d).byID[id] == l.byID[id]
  {
    CreateIsNew(l);
    var l' := Created(l, d);
    forall id | id in l'.byID ensures l'.byID[id].id == id && Given(l'.counter, id) && ValidSteps(l'.byID[id].steps) {
      if id in l.byID {
        if l'.counter != l.counter { GivenGrows(l.counter, id); }
      } else {
        assert l.counter + 1 <= l'.counter && id == PlaybookId(l.counter + 1);
      }
    }
  }

  lemma UpdateKeeps(l: Library, id: string, d: Draft)
    requires Sound(l)
    ensures Sound(Updated(l, id, d)) && Sound(Deleted(l, id))
  {
  }

  predicate PlaybookBefore(p: Playbook, q: Playbook) {
    Less(p.id, q.id)
  }

  lemma LibraryOrders(l: Library)
    requires Sound(l)
    ensures Orders(PlaybookBefore, l.byID.Values)
  {
    forall p: Playbook, q: Playbook
      ensures (PlaybookBefore(p, q) ==> !PlaybookBefore(q, p)) &&
              (PlaybookBefore(p, q) || p.id == q.id || PlaybookBefore(q, p))
    {
      LessTotal(p.id, q.id);
    }
    forall p: Playbook, q: Playbook, r: Playbook | PlaybookBefore(p, q) && PlaybookBefore(q, r)
      ensures PlaybookBefore(p, r)
    {
      LessTransitive(p.id, q.id, r.id);
    }
  }

  /** The stored playbooks in the order of their identifiers. */
  ghost function Listing(l: Library): (ps: seq<Playbook>)
    requires Sound(l)
    ensures forall p :: p in ps <==> p in l.byID.Values
    ensures forall i, j :: 0 <= i < j < |ps| ==> Less(ps[i].id, ps[j].id)
  {
    LibraryOrders(l);
    var ps := SortedBy(PlaybookBefore, l.byID.Values);
    assert forall p :: p in ps <==> p in Elements(ps);
    ps
  }

  class PlaybookStore {
    var counter: nat
    var byID: map<string, Playbook>

    function Contents(): (l: Library)
      reads this
    {
      Library(counter, byID)
    }

    ghost predicate Valid()
      reads this
    {
      Sound(Contents())
    }

    constructor ()
      ensures Valid() && Contents() == EMPTY_LIBRARY
    {
      counter, byID := 0, map[];
    }

    /** A new playbook gets a new identifier, and is a dry run unless its draft says otherwise. */
    method Create(d: Draft) returns (r: Option<Playbook>)
      requires Valid()
      modifies this
      ensures Valid() && Contents() == Created(old(Contents()), d)
      ensures r.Some? == ValidDraft(d)
      ensures r.Some? ==> r.value.id !in old(byID) && r.value.id in byID && r.value == byID[r.value.id]
      ensures r.Some? ==> (r.value.mode == ModeEnforce <==> d.mode == "enforce")
      ensures r.Some? ==> (r.value.mode == ModeOff <==> d.mode == "off")
    {
      CreateKeeps(Contents(), d);
      CreateIsNew(Contents());
      var ok := Validate(d);
      if !ok { return None; }
      counter := counter + 1;
      var p := Stored(PlaybookId(counter), d);
      byID := byID[p.id := p];
      return Some(p);
    }

    method Get(id: string) returns (r: Option<Playbook>)
      ensures r == if id in byID then Some(byID[id]) else None
    {
      if id !in byID { return None; }
      return Some(byID[id]);
    }

    method List() returns (ps: seq<Playbook>)
      requires Valid()
      ensures ps == Listing(Contents())
    {
      LibraryOrders(Contents());
      ps := SortSet(PlaybookBefore, byID.Values);
    }

    method Update(id: string, d: Draft) returns (r: Option<Playbook>)
      requires Valid()
      modifies this
      ensures Valid() && Contents() == Updated(old(Contents()), id, d)
      ensures r.Some? == (ValidDraft(d) && id in old(byID))
      ensures r.Some? ==> r.value == byID[id] && (r.value.mode == ModeEnforce <==> d.mode == "enforce")
    {
      UpdateKeeps(Contents(), id, d);
      var ok := Validate(d);
      if !ok || id !in byID { return None; }
      byID := byID[id := Stored(id, d)];
      return Some(byID[id]);
    }

    method Delete(id: string) returns (found: bool)
      requires Valid()
      modifies this
      ensures Valid() && Contents() == Deleted(old(Contents()), id) && found == (id in old(byID))
    {
      found := id in byID;
      byID := byID - {id};
    }
  }
}
