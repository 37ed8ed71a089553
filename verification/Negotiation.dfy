/**
 Negotiation of a sync plan (internal/sync/negotiation.go). Each peer compares two catalogues; the responder accepts
 the initiator's plan only if it is the mirror image of its own.
 */
module Negotiation {
  import opened Results
  import opened Entries

  /** A direction as received on the wire; any code but push and pull is passed through unchanged. */
  datatype Direction = Skip | Push | Pull | Other(code: int)

  datatype VaultTransfer = VaultTransfer(vaultName: string, direction: Direction, tier: int)

  datatype VaultConflict = VaultConflict(
    vaultName: string, localVersion: int, remoteVersion: int, localModified: int, remoteModified: int)

  datatype Plan = Plan(auto: seq<VaultTransfer>, conflicts: seq<VaultConflict>)

  // ----- comparing one vault -----

  function FlipDirection(d: Direction): Direction {
    match d
    case Push => Pull
    case Pull => Push
    case _ => d
  }

  predicate FingerprintMismatch(l: VaultEntry, r: VaultEntry) {
    l.fingerprint != "" && r.fingerprint != "" && l.fingerprint != r.fingerprint
  }

  function CompareEntries(name: string, l: VaultEntry, r: VaultEntry): Option<VaultTransfer> {
    if l.chainCS != "" && r.chainCS != "" && l.chainCS == r.chainCS then None
    else if l.version == r.version && l.modified == r.modified then None
    else if l.version > r.version then Some(VaultTransfer(name, Push, 1))
    else if r.version > l.version then Some(VaultTransfer(name, Pull, 1))
    else None
  }

  function ConflictOf(name: string, l: VaultEntry, r: VaultEntry): VaultConflict {
    VaultConflict(name, l.version, r.version, Unix(l.modified), Unix(r.modified))
  }

  function DetectConflict(name: string, l: VaultEntry, r: VaultEntry): Option<VaultConflict> {
    if l.version != r.version then None
    else if l.chainCS != "" && r.chainCS != "" && l.chainCS == r.chainCS then None
    else if l.chainCS != "" && r.chainCS != "" && l.chainCS != r.chainCS then Some(ConflictOf(name, l, r))
    else if l.itemCount != r.itemCount then Some(ConflictOf(name, l, r))
    else if l.modified == r.modified then None
    else Some(ConflictOf(name, l, r))
  }

  // ----- the specification: one verdict for each vault name -----

  datatype Verdict = InSync | Send(direction: Direction) | Conflict

  predicate Chained(l: VaultEntry, r: VaultEntry) {
    l.chainCS != "" && r.chainCS != ""
  }

  predicate Diverged(l: VaultEntry, r: VaultEntry) {
    l.version == r.version
    && (if Chained(l, r) then l.chainCS != r.chainCS else l.itemCount != r.itemCount || l.modified != r.modified)
  }

  function Judge(l: Option<VaultEntry>, r: Option<VaultEntry>, strict: bool): Verdict {
    match (l, r)
    case (None, None) => InSync
    case (Some(_), None) => Send(Push)
    case (None, Some(_)) => Send(Pull)
    case (Some(a), Some(b)) =>
      if (strict && FingerprintMismatch(a, b)) || Diverged(a, b) then Conflict
      else if (Chained(a, b) && a.chainCS == b.chainCS) || a.version == b.version then InSync
      else Send(if a.version > b.version then Push else Pull)
  }

  function VerdictOn(local: Catalogue, remote: Catalogue, strict: bool, name: string): Verdict {
    Judge(Get(local, name), Get(remote, name), strict)
  }

  function Mirror(v: Verdict): Verdict {
    match v
    case Send(d) => Send(FlipDirection(d))
    case _ => v
  }

  predicate DistinctTransfers(auto: seq<VaultTransfer>) {
    forall i, j | 0 <= i < j < |auto| :: auto[i].vaultName != auto[j].vaultName
  }

  predicate DistinctConflicts(conflicts: seq<VaultConflict>) {
    forall i, j | 0 <= i < j < |conflicts| :: conflicts[i].vaultName != conflicts[j].vaultName
  }

  function ConflictNames(conflicts: seq<VaultConflict>): set<string> {
    set i | 0 <= i < |conflicts| :: conflicts[i].vaultName
  }

  /** The plan lists the verdicts on the given names, each name once, in any order. */
  ghost predicate PlanOn(names: set<string>, local: Catalogue, remote: Catalogue, strict: bool, plan: Plan) {
    && DistinctTransfers(plan.auto) && DistinctConflicts(plan.conflicts)
    && (forall t | t in plan.auto ::
          t.vaultName in names && t.tier == 1 && VerdictOn(local, remote, strict, t.vaultName) == Send(t.direction))
    && (forall c | c in plan.conflicts ::
          && c.vaultName in names && VerdictOn(local, remote, strict, c.vaultName) == Conflict
          && c.vaultName in local && c.vaultName in remote
          && c == ConflictOf(c.vaultName, local[c.vaultName], remote[c.vaultName]))
    && (forall n | n in names ::
          var v := VerdictOn(local, remote, strict, n);
          && (v.Send? ==> VaultTransfer(n, v.direction, 1) in plan.auto)
          && (v.Conflict? ==> n in ConflictNames(plan.conflicts)))
  }

  ghost predicate IsPlan(local: Catalogue, remote: Catalogue, strict: bool, plan: Plan) {
    PlanOn(local.Keys + remote.Keys, local, remote, strict, plan)
  }

  // ----- Negotiate -----

  lemma CodeDecides(name: string, l: VaultEntry, r: VaultEntry)
    ensures Judge(Some(l), Some(r), false)
         == if CompareEntries(name, l, r).Some? then Send(CompareEntries(name, l, r).value.direction)
            else if DetectConflict(name, l, r).Some? then Conflict else InSync
    ensures CompareEntries(name, l, r).Some? ==> DetectConflict(name, l, r).None?
    ensures CompareEntries(name, l, r).Some? ==>
              CompareEntries(name, l, r).value == VaultTransfer(name, CompareEntries(name, l, r).value.direction, 1)
    ensures DetectConflict(name, l, r).Some? ==> DetectConflict(name, l, r).value == ConflictOf(name, l, r)
  {
  }

  lemma AddTransfer(names: set<string>, local: Catalogue, remote: Catalogue, strict: bool, plan: Plan, t: VaultTransfer)
    requires PlanOn(names, local, remote, strict, plan) && t.vaultName !in names && t.tier == 1
    requires VerdictOn(local, remote, strict, t.vaultName) == Send(t.direction)
    ensures PlanOn(names + {t.vaultName}, local, remote, strict, plan.(auto := plan.auto + [t]))
  {
    hide VerdictOn;
    assert forall u | u in plan.auto :: u in plan.auto + [t];
    assert t in plan.auto + [t];
  }

  lemma AddConflict(names: set<string>, local: Catalogue, remote: Catalogue, strict: bool, plan: Plan, c: VaultConflict)
    requires PlanOn(names, local, remote, strict, plan) && c.vaultName !in names
    requires c.vaultName in local && c.vaultName in remote
    requires c == ConflictOf(c.vaultName, local[c.vaultName], remote[c.vaultName])
    requires VerdictOn(local, remote, strict, c.vaultName) == Conflict
    ensures PlanOn(names + {c.vaultName}, local, remote, strict, plan.(conflicts := plan.conflicts + [c]))
  {
    hide VerdictOn;
    var more := plan.conflicts + [c];
    assert more[|plan.conflicts|] == c;
    assert forall i | 0 <= i < |plan.conflicts| :: more[i] == plan.conflicts[i];
    assert ConflictNames(more) == ConflictNames(plan.conflicts) + {c.vaultName};
  }

  lemma AddNothing(names: set<string>, local: Catalogue, remote: Catalogue, strict: bool, plan: Plan, n: string)
    requires PlanOn(names, local, remote, strict, plan) && VerdictOn(local, remote, strict, n) == InSync
    ensures PlanOn(names + {n}, local, remote, strict, plan)
  {
  }

  method Negotiate(local: Catalogue, remote: Catalogue, strict: bool) returns (plan: Plan)
    ensures IsPlan(local, remote, strict, plan)
  {
    hide PlanOn;
    plan := Plan([], []);
    EmptyPlan(local, remote, strict);
    var seen: set<string> := {};
    var todo := local.Keys;
    while todo != {}
      invariant seen + todo == local.Keys && seen !! todo
      invariant PlanOn(seen, local, remote, strict, plan)
      decreases |todo|
    {
      var name :| name in todo;
      plan := NegotiateVault(seen, local, remote, strict, plan, name);
      todo, seen := todo - {name}, seen + {name};
    }
    plan := NegotiateRemote(local, remote, strict, plan, seen);
  }

  /** The body of the loop over the local catalogue. */
  method NegotiateVault(
      ghost names: set<string>, local: Catalogue, remote: Catalogue, strict: bool, before: Plan, name: string)
      returns (plan: Plan)
    requires PlanOn(names, local, remote, strict, before) && name in local && name !in names
    ensures PlanOn(names + {name}, local, remote, strict, plan)
  {
    hide PlanOn, Judge, CompareEntries, DetectConflict;
    plan := before;
    var le := local[name];
    if name !in remote {
      JudgeAlone(le, strict);
      var t := VaultTransfer(name, Push, 1);
      AddTransfer(names, local, remote, strict, plan, t);
      return plan.(auto := plan.auto + [t]);
    }
    var re := remote[name];
    JudgeBoth(le, re, strict);
    if strict && FingerprintMismatch(le, re) {
      var c := VaultConflict(name, le.version, re.version, Unix(le.modified), Unix(re.modified));
      AddConflict(names, local, remote, strict, plan, c);
      return plan.(conflicts := plan.conflicts + [c]);
    }
    CodeDecides(name, le, re);
    var transfer := CompareEntries(name, le, re);
    if transfer.Some? {
      AddTransfer(names, local, remote, strict, plan, transfer.value);
      plan := plan.(auto := plan.auto + [transfer.value]);
    }
    var conflict := DetectConflict(name, le, re);
    if conflict.Some? {
      AddConflict(names, local, remote, strict, plan, conflict.value);
      plan := plan.(conflicts := plan.conflicts + [conflict.value]);
    }
    if transfer.None? && conflict.None? {
      AddNothing(names, local, remote, strict, plan, name);
    }
  }

  /** The loop over the remote catalogue. */
  method NegotiateRemote(local: Catalogue, remote: Catalogue, strict: bool, before: Plan, seen: set<string>)
      returns (plan: Plan)
    requires PlanOn(seen, local, remote, strict, before) && seen == local.Keys
    ensures IsPlan(local, remote, strict, plan)
  {
    hide PlanOn, Judge;
    plan := before;
    var todo := remote.Keys;
    assert seen + (remote.Keys - todo) == seen;
    while todo != {}
      invariant todo <= remote.Keys && PlanOn(seen + (remote.Keys - todo), local, remote, strict, plan)
      decreases |todo|
    {
      var name :| name in todo;
      ghost var done := seen + (remote.Keys - todo);
      ghost var was := todo;
      todo := todo - {name};
      assert was == todo + {name};
      GrowDone(seen, remote.Keys, todo, name);
      if name in seen {
        continue;
      }
      JudgeAlone(remote[name], strict);
      var t := VaultTransfer(name, Pull, 1);
      AddTransfer(done, local, remote, strict, plan, t);
      plan := plan.(auto := plan.auto + [t]);
    }
    assert remote.Keys - todo == remote.Keys;
  }

  lemma GrowDone(seen: set<string>, all: set<string>, todo: set<string>, name: string)
    requires name in all && name !in todo
    ensures seen + (all - todo) == (seen + (all - (todo + {name}))) + {name}
    ensures name in seen ==> seen + (all - todo) == seen + (all - (todo + {name}))
  {
  }

  lemma EmptyPlan(local: Catalogue, remote: Catalogue, strict: bool)
    ensures PlanOn({}, local, remote, strict, Plan([], []))
  {
  }

  lemma JudgeAlone(e: VaultEntry, strict: bool)
    ensures Judge(Some(e), None, strict) == Send(Push) && Judge(None, Some(e), strict) == Send(Pull)
  {
  }

  lemma JudgeBoth(l: VaultEntry, r: VaultEntry, strict: bool)
    ensures Judge(Some(l), Some(r), strict)
         == if strict && FingerprintMismatch(l, r) then Conflict else Judge(Some(l), Some(r), false)
  {
  }

  // ----- VerifyPlanConsistency -----

  datatype PlanError =
    | NotInResponderPlan(name: string)
    | DirectionMismatch(name: string)
    | NotInInitiatorPlan(name: string)
    | ConflictNotInResponder(name: string)
    | ConflictNotInInitiator(name: string)

  /** The directions of a transfer list by vault; a later transfer of the same vault replaces an earlier one. */
  function Directions(auto: seq<VaultTransfer>): map<string, Direction> {
    if auto == [] then map[]
    else
      var last := auto[|auto| - 1];
      Directions(auto[..|auto| - 1])[last.vaultName := last.direction]
  }

  function Flipped(auto: seq<VaultTransfer>): map<string, Direction> {
    map n | n in Directions(auto) :: FlipDirection(Directions(auto)[n])
  }

  /** The responder's view of the initiator's plan: no vault twice, every direction mirrored, the same conflicts. */
  predicate Agree(initiator: Plan, responder: Plan) {
    && DistinctTransfers(initiator.auto)
    && Flipped(initiator.auto) == Directions(responder.auto)
    && ConflictNames(initiator.conflicts) == ConflictNames(responder.conflicts)
  }

  lemma DirectionsSnoc(auto: seq<VaultTransfer>, t: VaultTransfer)
    ensures Directions(auto + [t]) == Directions(auto)[t.vaultName := t.direction]
  {
    assert (auto + [t])[..|auto|] == auto;
  }

  lemma {:induction false} DirectionsNames(auto: seq<VaultTransfer>, n: string)
    ensures n in Directions(auto) <==> exists i :: 0 <= i < |auto| && auto[i].vaultName == n
  {
    if auto != [] {
      var m := |auto| - 1;
      DirectionsNames(auto[..m], n);
      assert forall i | 0 <= i < m :: auto[..m][i] == auto[i];
    }
  }

  lemma DistinctSnoc(auto: seq<VaultTransfer>, t: VaultTransfer)
    ensures DistinctTransfers(auto + [t]) <==> DistinctTransfers(auto) && t.vaultName !in Directions(auto)
  {
    DirectionsNames(auto, t.vaultName);
    var more := auto + [t];
    assert forall i | 0 <= i < |auto| :: more[i] == auto[i];
    assert more[|auto|] == t;
  }

  lemma {:induction false} DistinctPrefix(auto: seq<VaultTransfer>, k: nat)
    requires k <= |auto| && !DistinctTransfers(auto[..k])
    ensures !DistinctTransfers(auto)
  {
    var i, j :| 0 <= i < j < k && auto[..k][i].vaultName == auto[..k][j].vaultName;
    assert auto[i].vaultName == auto[j].vaultName;
  }

  method VerifyPlanConsistency(initiator: Plan, responder: Plan) returns (error: Option<PlanError>)
    ensures error.None? <==> Agree(initiator, responder)
  {
    hide Directions, FlipDirection, DistinctTransfers;
    var responderAuto := DirectionMap(responder.auto);
    ghost var all := responderAuto;
    error, responderAuto := MatchTransfers(initiator.auto, responderAuto);
    if error.Some? {
      return;
    }
    assert responderAuto == map[] ==> Flipped(initiator.auto) == all by {
      assert forall n | n in all && n !in Flipped(initiator.auto) :: n in responderAuto;
    }
    if responderAuto != map[] {
      var name :| name in responderAuto;
      return Some(NotInInitiatorPlan(name));
    }
    var initiatorConflicts := ConflictSet(initiator.conflicts);
    var responderConflicts := ConflictSet(responder.conflicts);
    if name :| name in initiatorConflicts && name !in responderConflicts {
      return Some(ConflictNotInResponder(name));
    }
    if name :| name in responderConflicts && name !in initiatorConflicts {
      return Some(ConflictNotInInitiator(name));
    }
    assert initiatorConflicts == responderConflicts;
    return None;
  }

  /** The loop that builds responderAuto. */
  method DirectionMap(auto: seq<VaultTransfer>) returns (m: map<string, Direction>)
    ensures m == Directions(auto)
  {
    m := map[];
    for i := 0 to |auto|
      invariant m == Directions(auto[..i])
    {
      assert auto[..i + 1] == auto[..i] + [auto[i]];
      DirectionsSnoc(auto[..i], auto[i]);
      m := m[auto[i].vaultName := auto[i].direction];
    }
    assert auto[..|auto|] == auto;
  }

  /** The loops that build the conflict sets. */
  method ConflictSet(conflicts: seq<VaultConflict>) returns (names: set<string>)
    ensures names == ConflictNames(conflicts)
  {
    names := {};
    for i := 0 to |conflicts|
      invariant names == set k | 0 <= k < i :: conflicts[k].vaultName
    {
      names := names + {conflicts[i].vaultName};
    }
  }

  /** The loop over the initiator's transfers, which removes every matched vault from the responder's map. */
  method MatchTransfers(auto: seq<VaultTransfer>, responderAuto: map<string, Direction>)
      returns (error: Option<PlanError>, rest: map<string, Direction>)
    ensures error.None? ==> DistinctTransfers(auto) && rest == responderAuto - Flipped(auto).Keys
    ensures error.None? ==> forall n | n in Flipped(auto) :: n in responderAuto && responderAuto[n] == Flipped(auto)[n]
    ensures error.Some? ==> !(DistinctTransfers(auto) && Flipped(auto) == responderAuto)
  {
    hide Directions, FlipDirection, DistinctTransfers;
    rest := responderAuto;
    NoTransfers();
    for i := 0 to |auto|
      invariant DistinctTransfers(auto[..i]) && rest == responderAuto - Directions(auto[..i]).Keys
      invariant forall n | n in Directions(auto[..i]) ::
                  n in responderAuto && responderAuto[n] == FlipDirection(Directions(auto[..i])[n])
    {
      var t := auto[i];
      assert auto[..i + 1] == auto[..i] + [t];
      DirectionsSnoc(auto[..i], t);
      DistinctSnoc(auto[..i], t);
      if t.vaultName !in rest {
        MissingTransfer(auto, responderAuto, i);
        return Some(NotInResponderPlan(t.vaultName)), rest;
      }
      if rest[t.vaultName] != FlipDirection(t.direction) {
        WrongDirection(auto, responderAuto, i);
        return Some(DirectionMismatch(t.vaultName)), rest;
      }
      rest := rest - {t.vaultName};
    }
    assert auto[..|auto|] == auto;
    assert Flipped(auto).Keys == Directions(auto).Keys;
    return None, rest;
  }

  lemma NoTransfers()
    ensures Directions([]) == map[] && DistinctTransfers([])
  {
  }

  lemma MissingTransfer(auto: seq<VaultTransfer>, m: map<string, Direction>, i: nat)
    requires i < |auto| && (auto[i].vaultName !in m || auto[i].vaultName in Directions(auto[..i]))
    ensures !(DistinctTransfers(auto) && Flipped(auto) == m)
  {
    DirectionsNames(auto, auto[i].vaultName);
    if auto[i].vaultName in Directions(auto[..i]) {
      DistinctSnoc(auto[..i], auto[i]);
      assert auto[..i + 1] == auto[..i] + [auto[i]];
      DistinctPrefix(auto, i + 1);
    }
  }

  lemma {:induction false} DistinctDirection(auto: seq<VaultTransfer>, i: nat)
    requires DistinctTransfers(auto) && i < |auto|
    ensures auto[i].vaultName in Directions(auto) && Directions(auto)[auto[i].vaultName] == auto[i].direction
  {
    if i < |auto| - 1 {
      DistinctDirection(auto[..|auto| - 1], i);
    }
  }

  lemma WrongDirection(auto: seq<VaultTransfer>, m: map<string, Direction>, i: nat)
    requires i < |auto| && auto[i].vaultName in m && m[auto[i].vaultName] != FlipDirection(auto[i].direction)
    ensures !(DistinctTransfers(auto) && Flipped(auto) == m)
  {
    if DistinctTransfers(auto) {
      DistinctDirection(auto, i);
    }
  }

  // ----- what negotiation promises -----

  lemma FlipTwice(d: Direction)
    ensures FlipDirection(FlipDirection(d)) == d
  {
  }

  /** The two sides judge a vault as mirror images of each other. */
  lemma JudgeMirrored(l: Option<VaultEntry>, r: Option<VaultEntry>, strict: bool)
    ensures Judge(r, l, strict) == Mirror(Judge(l, r, strict))
  {
  }

  lemma PlanDirections(local: Catalogue, remote: Catalogue, strict: bool, plan: Plan)
    requires IsPlan(local, remote, strict, plan)
    ensures forall n :: n in Directions(plan.auto) <==> VerdictOn(local, remote, strict, n).Send?
    ensures forall n | n in Directions(plan.auto) ::
              VerdictOn(local, remote, strict, n) == Send(Directions(plan.auto)[n])
    ensures forall n :: n in ConflictNames(plan.conflicts) <==> VerdictOn(local, remote, strict, n).Conflict?
  {
    hide Judge, Directions;
    forall n
      ensures n in Directions(plan.auto) <==> VerdictOn(local, remote, strict, n).Send?
      ensures n in Directions(plan.auto) ==> VerdictOn(local, remote, strict, n) == Send(Directions(plan.auto)[n])
    {
      DirectionsNames(plan.auto, n);
      var v := VerdictOn(local, remote, strict, n);
      if v.Send? {
        Unknown(local, remote, strict, n);
        var i :| 0 <= i < |plan.auto| && plan.auto[i] == VaultTransfer(n, v.direction, 1);
        DistinctDirection(plan.auto, i);
      }
    }
    forall n | VerdictOn(local, remote, strict, n).Conflict?
      ensures n in ConflictNames(plan.conflicts)
    {
      Unknown(local, remote, strict, n);
    }
  }

  lemma Unknown(local: Catalogue, remote: Catalogue, strict: bool, n: string)
    ensures !VerdictOn(local, remote, strict, n).InSync? ==> n in local.Keys + remote.Keys
  {
  }

  /** Plans of the two sides, possibly in different modes, agree exactly when all their verdicts mirror. */
  lemma AgreeExact(local: Catalogue, remote: Catalogue, s1: bool, s2: bool, p: Plan, q: Plan)
    requires IsPlan(local, remote, s1, p) && IsPlan(remote, local, s2, q)
    ensures Agree(p, q) <==>
              forall n :: VerdictOn(local, remote, s1, n) == Mirror(VerdictOn(remote, local, s2, n))
  {
    hide Judge, Directions, VerdictOn, PlanOn;
    PlanDirections(local, remote, s1, p);
    PlanDirections(remote, local, s2, q);
    PlanDistinct(local, remote, s1, p);
    if Agree(p, q) {
      forall n
        ensures VerdictOn(local, remote, s1, n) == Mirror(VerdictOn(remote, local, s2, n))
      {
        SameVerdict(p, q, VerdictOn(local, remote, s1, n), VerdictOn(remote, local, s2, n), n);
      }
    }
    if forall n :: VerdictOn(local, remote, s1, n) == Mirror(VerdictOn(remote, local, s2, n)) {
      forall n
        ensures n in Flipped(p.auto) <==> n in Directions(q.auto)
        ensures n in Flipped(p.auto) ==> Flipped(p.auto)[n] == Directions(q.auto)[n]
        ensures n in ConflictNames(p.conflicts) <==> n in ConflictNames(q.conflicts)
      {
        var v := VerdictOn(remote, local, s2, n);
        if v.Send? {
          FlipTwice(v.direction);
        }
      }
    }
  }

  lemma PlanDistinct(local: Catalogue, remote: Catalogue, strict: bool, plan: Plan)
    requires IsPlan(local, remote, strict, plan)
    ensures DistinctTransfers(plan.auto)
  {
  }

  lemma SameVerdict(p: Plan, q: Plan, v: Verdict, w: Verdict, n: string)
    requires Agree(p, q)
    requires n in Directions(p.auto) <==> v.Send?
    requires n in Directions(p.auto) ==> v == Send(Directions(p.auto)[n])
    requires n in ConflictNames(p.conflicts) <==> v.Conflict?
    requires n in Directions(q.auto) <==> w.Send?
    requires n in Directions(q.auto) ==> w == Send(Directions(q.auto)[n])
    requires n in ConflictNames(q.conflicts) <==> w.Conflict?
    ensures v == Mirror(w)
  {
    hide Directions;
    assert n in Flipped(p.auto) <==> n in Directions(q.auto);
    if v.Send? {
      FlipTwice(v.direction);
      assert Flipped(p.auto)[n] == Directions(q.auto)[n];
    }
  }

  /** Two honest peers in the same mode always agree, whatever order their maps are walked in. */
  lemma MirrorAgreement(local: Catalogue, remote: Catalogue, strict: bool, p: Plan, q: Plan)
    requires IsPlan(local, remote, strict, p) && IsPlan(remote, local, strict, q)
    ensures Agree(p, q)
  {
    AgreeExact(local, remote, strict, strict, p, q);
    forall n
      ensures VerdictOn(local, remote, strict, n) == Mirror(VerdictOn(remote, local, strict, n))
    {
      JudgeMirrored(Get(remote, n), Get(local, n), strict);
    }
  }

  /** A strict and a relaxed peer agree exactly when every re-keyed common vault is a conflict even for the relaxed one. */
  lemma MixedModes(local: Catalogue, remote: Catalogue, s1: bool, s2: bool, p: Plan, q: Plan)
    requires s1 != s2 && IsPlan(local, remote, s1, p) && IsPlan(remote, local, s2, q)
    ensures Agree(p, q) <==>
              forall n | n in local && n in remote && FingerprintMismatch(local[n], remote[n]) ::
                VerdictOn(local, remote, false, n) == Conflict
  {
    hide PlanOn;
    AgreeExact(local, remote, s1, s2, p, q);
    forall n
      ensures VerdictOn(local, remote, s1, n) == Mirror(VerdictOn(remote, local, s2, n)) <==>
                (n in local && n in remote && FingerprintMismatch(local[n], remote[n]) ==>
                   VerdictOn(local, remote, false, n) == Conflict)
    {
      JudgeMirrored(Get(remote, n), Get(local, n), s2);
    }
  }

  /** Every planned transfer is of a vault that only one side has, or from the strictly higher version. */
  lemma TransfersFlowForward(local: Catalogue, remote: Catalogue, strict: bool, plan: Plan, t: VaultTransfer)
    requires IsPlan(local, remote, strict, plan) && t in plan.auto
    ensures t.direction == Push || t.direction == Pull
    ensures t.direction == Push ==>
              t.vaultName in local && (t.vaultName in remote ==> local[t.vaultName].version > remote[t.vaultName].version)
    ensures t.direction == Pull ==>
              t.vaultName in remote && (t.vaultName in local ==> remote[t.vaultName].version > local[t.vaultName].version)
    ensures t.vaultName !in ConflictNames(plan.conflicts)
  {
    PlanDirections(local, remote, strict, plan);
  }

  // ----- the plan in terms of the entries -----

  /** Both sides carry the same checksum. */
  predicate SameChecksum(l: VaultEntry, r: VaultEntry) {
    l.chainCS != "" && l.chainCS == r.chainCS
  }

  /** The two entries of one version differ: by their checksums if both have one, otherwise by item count or time. */
  predicate LooksDifferent(l: VaultEntry, r: VaultEntry) {
    if l.chainCS != "" && r.chainCS != "" then l.chainCS != r.chainCS
    else l.itemCount != r.itemCount || l.modified != r.modified
  }

  /** The first side's entry is to go to the second one. */
  predicate Goes(l: Option<VaultEntry>, r: Option<VaultEntry>, strict: bool) {
    match (l, r)
    case (None, _) => false
    case (Some(_), None) => true
    case (Some(a), Some(b)) => a.version > b.version && !SameChecksum(a, b) && !(strict && FingerprintMismatch(a, b))
  }

  /**
   A plan pushes exactly the vaults that only the local side has or has at a higher version, and pulls likewise, unless
   the checksums are equal or the strict mode sees two keys. Its conflicts are exactly the vaults of both sides with two
   keys in the strict mode, or of one version that look different.
   */
  lemma PlanExact(local: Catalogue, remote: Catalogue, strict: bool, plan: Plan, n: string)
    requires IsPlan(local, remote, strict, plan)
    ensures VaultTransfer(n, Push, 1) in plan.auto <==> Goes(Get(local, n), Get(remote, n), strict)
    ensures VaultTransfer(n, Pull, 1) in plan.auto <==> Goes(Get(remote, n), Get(local, n), strict)
    ensures n in ConflictNames(plan.conflicts) <==>
              && n in local && n in remote
              && ((strict && FingerprintMismatch(local[n], remote[n]))
                  || (local[n].version == remote[n].version && LooksDifferent(local[n], remote[n])))
    ensures forall t | t in plan.auto :: t.tier == 1 && (t.direction == Push || t.direction == Pull)
    ensures forall i, j | 0 <= i < j < |plan.auto| :: plan.auto[i].vaultName != plan.auto[j].vaultName
    ensures forall c | c in plan.conflicts && c.vaultName == n ::
              && n in local && n in remote
              && c == VaultConflict(n, local[n].version, remote[n].version, Unix(local[n].modified), Unix(remote[n].modified))
  {
    var v := VerdictOn(local, remote, strict, n);
    VerdictIs(Get(local, n), Get(remote, n), strict);
    if v.Send? {
      assert n in local.Keys + remote.Keys;
    }
    if n in ConflictNames(plan.conflicts) {
      var i :| 0 <= i < |plan.conflicts| && plan.conflicts[i].vaultName == n;
      assert plan.conflicts[i] in plan.conflicts;
    }
    if v.Conflict? {
      assert n in local.Keys + remote.Keys;
    }
    forall t | t in plan.auto
      ensures t.tier == 1 && (t.direction == Push || t.direction == Pull)
    {
      assert VerdictOn(local, remote, strict, t.vaultName) == Send(t.direction);
    }
  }

  lemma VerdictIs(l: Option<VaultEntry>, r: Option<VaultEntry>, strict: bool)
    ensures Judge(l, r, strict) == Send(Push) <==> Goes(l, r, strict)
    ensures Judge(l, r, strict) == Send(Pull) <==> Goes(r, l, strict)
    ensures Judge(l, r, strict).Send? ==> Judge(l, r, strict).direction == Push || Judge(l, r, strict).direction == Pull
    ensures Judge(l, r, strict) == Conflict <==>
              && l.Some? && r.Some?
              && ((strict && FingerprintMismatch(l.value, r.value))
                  || (l.value.version == r.value.version && LooksDifferent(l.value, r.value)))
  {
  }
}
