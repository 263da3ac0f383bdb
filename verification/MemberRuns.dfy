/** The member handlers with their database calls apart: authorization, the read of the target's
    membership, the owner query and the write are separate steps, and handlers overlap freely. */
module MemberRuns {
  import opened Wrappers
  import opened Members

  datatype Change = Store(key: Membership, role: Role) | Remove(key: Membership)

  /** `read` and `checked` are the number of landed writes when the membership was read (None when
      the read was not answered) and when the owner check was passed. */
  datatype Pc =
    | Authorize
    | ReadMember(actor: Actor, change: Change)
    | AskOwners(actor: Actor, change: Change, readAt: nat)
    | WriteRow(actor: Actor, change: Change, read: Option<nat>, checked: nat)
    | Ended(response: Response)

  datatype Run = Run(who: Principal, request: Request, pc: Pc)

  /** A landed write: the role of its row before and after. */
  datatype Landed = Landed(key: Membership, before: Option<Role>, after: Option<Role>)

  /** `log` lists the landed writes in order. */
  datatype State = State(directory: Directory, runs: map<nat, Run>, log: seq<Landed>)

  datatype Action = Begin(run: nat, who: Principal, request: Request) | Advance(run: nat, calls: Calls)

  function Initial(d: Directory): State {
    State(d, map[], [])
  }

  // --- the steps ------------------------------------------------------------------------

  /** Everything before the membership read: the actor's role, the request, the target. */
  function Authorized(d: Directory, who: Principal, q: Request, c: Calls): Pc {
    var actor := OrganizationWithRole(d, who, q.org, c);
    if actor.None? then Ended(OrganizationForbidden)
    else if q.CreateMember? && q.email == "" then Ended(EmailRequired)
    else if !q.CreateMember? && q.user == "" then Ended(MemberRequired)
    else if !q.DeleteMember? && !AssignableBy(actor.value, q.requested) then Ended(RoleForbidden)
    else if q.CreateMember? && (c.lookup.None? || c.lookup.value == "") then Ended(UserNotFound)
    else if !c.merchantRead || q.org !in d.organizations then Ended(MerchantNotFound)
    else
      var key := Target(d, q, c);
      ReadMember(actor.value, if q.DeleteMember? then Remove(key) else Store(key, q.requested.value))
  }

  /** The change would take the target's owner role away, if it has it. */
  predicate Demotes(change: Change) {
    change.Remove? || change.role != Owner
  }

  function AfterRead(rows: Rows, q: Request, actor: Actor, change: Change, c: Calls, now: nat): Pc {
    var key := change.key;
    if !c.memberRead then (if q.CreateMember? then WriteRow(actor, change, None, now) else Ended(MemberNotFound))
    else if key !in rows then
      (if q.CreateMember? then WriteRow(actor, change, Some(now), now) else Ended(MemberNotFound))
    else if !ManageableBy(actor, rows[key]) then Ended(MemberForbidden)
    else if rows[key] == Owner && Demotes(change) then AskOwners(actor, change, now)
    else WriteRow(actor, change, Some(now), now)
  }

  /** The rows after a landed write; a patch of a row that is gone does nothing. */
  function Applied(rows: Rows, q: Request, change: Change): Rows {
    match change
    case Remove(key) => rows - {key}
    case Store(key, role) => if q.CreateMember? || key in rows then rows[key := role] else rows
  }

  function RoleOf(rows: Rows, key: Membership): Option<Role> {
    if key in rows then Some(rows[key]) else None
  }

  predicate LosesOwner(rows: Rows, change: Change) {
    RoleOf(rows, change.key) == Some(Owner) && Demotes(change)
  }

  function Moved(s: State, r: nat, pc: Pc): State
    requires r in s.runs
  {
    s.(runs := s.runs[r := s.runs[r].(pc := pc)])
  }

  function Step(s: State, r: nat, c: Calls): State
    requires r in s.runs
  {
    var d, run := s.directory, s.runs[r];
    match run.pc
    case Authorize => Moved(s, r, Authorized(d, run.who, run.request, c))
    case ReadMember(actor, change) => Moved(s, r, AfterRead(d.rows, run.request, actor, change, c, |s.log|))
    case AskOwners(actor, change, readAt) =>
      Moved(s, r, if SomeoneElse(c.owners, change.key.user) then WriteRow(actor, change, Some(readAt), |s.log|)
                  else Ended(LastOwner))
    case WriteRow(_, change, _, _) =>
      var s', rows := Moved(s, r, Ended(Written(c.write))), Applied(d.rows, run.request, change);
      if !Lands(c.write) then s'
      else s'.(directory := d.(rows := rows),
               log := s.log + [Landed(change.key, RoleOf(d.rows, change.key), RoleOf(rows, change.key))])
    case Ended(_) => s
  }

  function Next(s: State, a: Action): State {
    match a
    case Begin(r, who, q) => if r in s.runs then s else s.(runs := s.runs[r := Run(who, q, Authorize)])
    case Advance(r, c) => if r in s.runs then Step(s, r, c) else s
  }

  function Exec(s: State, history: seq<Action>): State
    decreases |history|
  {
    if history == [] then s else Exec(Next(s, history[0]), history[1..])
  }

  /** One request from beginning to end with nothing in between is the handler as one step. */
  lemma AloneIsTheHandler(d: Directory, who: Principal, q: Request, c: Calls)
    ensures var go := Advance(0, c);
            var s := Exec(Initial(d), [Begin(0, who, q), go, go, go, go]);
            && s.directory == d.(rows := Handle(d, who, q, c).rows)
            && s.runs == map[0 := Run(who, q, Ended(Handle(d, who, q, c).response))]
  {
    var go := Advance(0, c);
    FiveSteps(Initial(d), Begin(0, who, q), go);
    var pc := Authorized(d, who, q, c);
    var s1 := State(d, map[0 := Run(who, q, Authorize)], []);
    assert Next(Initial(d), Begin(0, who, q)) == s1;
    var s2 := State(d, map[0 := Run(who, q, pc)], []);
    assert Next(s1, go) == s2;
    FromRead(s2, who, q, c);
    HandleIsItsSteps(d, who, q, c);
  }

  /** Rows and response when a request goes on from `pc` alone. */
  function Finished(d: Directory, q: Request, pc: Pc, c: Calls): Outcome {
    match pc
    case ReadMember(actor, change) =>
      (
        match AfterRead(d.rows, q, actor, change, c, 0)
        case AskOwners(_, _, _) =>
          if SomeoneElse(c.owners, change.key.user) then
            Outcome(if Lands(c.write) then Applied(d.rows, q, change) else d.rows, Written(c.write))
          else Outcome(d.rows, LastOwner)
        case WriteRow(_, _, _, _) =>
          Outcome(if Lands(c.write) then Applied(d.rows, q, change) else d.rows, Written(c.write))
        case Ended(response) => Outcome(d.rows, response)
        case _ => Outcome(d.rows, Done)
      )
    case Ended(response) => Outcome(d.rows, response)
    case _ => Outcome(d.rows, Done)
  }

  lemma FromRead(s: State, who: Principal, q: Request, c: Calls)
    requires 0 in s.runs && s == State(s.directory, map[0 := Run(who, q, s.runs[0].pc)], [])
    requires s.runs[0].pc.ReadMember? || s.runs[0].pc.Ended?
    ensures var go := Advance(0, c); var s' := Next(Next(Next(s, go), go), go);
            var o := Finished(s.directory, q, s.runs[0].pc, c);
            s'.directory == s.directory.(rows := o.rows) && s'.runs == map[0 := Run(who, q, Ended(o.response))]
  {
    var go := Advance(0, c);
    if s.runs[0].pc.ReadMember? {
      var pc := s.runs[0].pc;
      var next := AfterRead(s.directory.rows, q, pc.actor, pc.change, c, 0);
      var t := State(s.directory, map[0 := Run(who, q, next)], []);
      assert Next(s, go) == t;
      FromAsk(t, who, q, c);
    }
  }

  lemma FromAsk(s: State, who: Principal, q: Request, c: Calls)
    requires 0 in s.runs && s == State(s.directory, map[0 := Run(who, q, s.runs[0].pc)], [])
    requires s.runs[0].pc.AskOwners? || s.runs[0].pc.WriteRow? || s.runs[0].pc.Ended?
    ensures var go := Advance(0, c); var s', pc := Next(Next(s, go), go), s.runs[0].pc;
            var writes := pc.WriteRow? || (pc.AskOwners? && SomeoneElse(c.owners, pc.change.key.user));
            && s'.directory == (if !writes || !Lands(c.write) then s.directory
                                else s.directory.(rows := Applied(s.directory.rows, q, pc.change)))
            && s'.runs == map[0 := Run(who, q, Ended(if pc.Ended? then pc.response
                                                     else if writes then Written(c.write)
                                                     else LastOwner))]
  {
    hide SomeoneElse, Applied;
  }

  lemma HandleIsItsSteps(d: Directory, who: Principal, q: Request, c: Calls)
    ensures Finished(d, q, Authorized(d, who, q, c), c) == Handle(d, who, q, c)
    ensures Authorized(d, who, q, c).ReadMember? || Authorized(d, who, q, c).Ended?
  {
    hide OrganizationWithRole, AssignableBy, ManageableBy, SomeoneElse;
  }

  lemma FiveSteps(s: State, b: Action, go: Action)
    ensures Exec(s, [b, go, go, go, go]) == Next(Next(Next(Next(Next(s, b), go), go), go), go)
  {
    hide Next;
    var s1 := Next(s, b);
    assert [b, go, go, go, go][1..] == [go, go, go, go];
    assert [go, go, go, go][1..] == [go, go, go];
    assert [go, go, go][1..] == [go, go];
    assert [go, go][1..] == [go];
    assert [go][1..] == [];
    assert Exec(s, [b, go, go, go, go]) == Exec(s1, [go, go, go, go]);
    assert Exec(s1, [go, go, go, go]) == Exec(Next(s1, go), [go, go, go]);
    assert Exec(Next(s1, go), [go, go, go]) == Exec(Next(Next(s1, go), go), [go, go]);
    assert Exec(Next(Next(s1, go), go), [go, go]) == Exec(Next(Next(Next(s1, go), go), go), [go]);
  }

  // --- overlapping runs --------------------------------------------------------------------

  /** An owner query is answered genuinely at the moment it is asked. */
  predicate GenuineStep(s: State, a: Action) {
    a.Advance? && a.run in s.runs && s.runs[a.run].pc.AskOwners? && a.calls.owners.Some? ==>
      AnswersOwnerQuery(s.directory.rows, s.runs[a.run].pc.change.key.merchant, a.calls.owners.value)
  }

  predicate TakesOwner(w: Landed, merchant: string) {
    w.key.merchant == merchant && w.before == Some(Owner) && w.after != Some(Owner)
  }

  predicate NoLossSince(log: seq<Landed>, since: nat, merchant: string) {
    forall i :: since <= i < |log| ==> !TakesOwner(log[i], merchant)
  }

  /** A write that takes an owner from the merchant lands although the target's membership was never
      read, or although another owner was lost between the run's owner check and this write. */
  predicate Overtaken(s: State, a: Action, merchant: string) {
    && a.Advance? && a.run in s.runs && s.runs[a.run].pc.WriteRow? && Lands(a.calls.write)
    && var pc := s.runs[a.run].pc;
       && pc.change.key.merchant == merchant && LosesOwner(s.directory.rows, pc.change)
       && (pc.read.None? || !NoLossSince(s.log, pc.checked, merchant))
  }

  /** Such a write that hits the only owner left. */
  predicate TakesLastOwner(s: State, a: Action, merchant: string) {
    Overtaken(s, a, merchant) && Owners(s.directory.rows, merchant) == {s.runs[a.run].pc.change.key.user}
  }

  predicate Genuine(s: State, history: seq<Action>)
    decreases |history|
  {
    history != [] ==> GenuineStep(s, history[0]) && Genuine(Next(s, history[0]), history[1..])
  }

  predicate MeetsOvertaking(s: State, history: seq<Action>, merchant: string)
    decreases |history|
  {
    history != [] && (Overtaken(s, history[0], merchant)
                      || MeetsOvertaking(Next(s, history[0]), history[1..], merchant))
  }

  predicate MeetsTakingTheLast(s: State, history: seq<Action>, merchant: string)
    decreases |history|
  {
    history != [] && (TakesLastOwner(s, history[0], merchant)
                      || MeetsTakingTheLast(Next(s, history[0]), history[1..], merchant))
  }

  /** The merchant has an owner in every state along the history. */
  predicate KeepsAnOwner(s: State, history: seq<Action>, merchant: string)
    decreases |history|
  {
    && HasOwner(s.directory.rows, merchant)
    && (history != [] ==> KeepsAnOwner(Next(s, history[0]), history[1..], merchant))
  }

  /** A run that passed its owner check and has not been overtaken leaves another owner. */
  ghost predicate RunOk(s: State, run: Run, merchant: string) {
    match run.pc
    case WriteRow(_, change, Some(_), checked) =>
      && checked <= |s.log|
      && (change.key.merchant == merchant && Demotes(change) && NoLossSince(s.log, checked, merchant) ==>
            Owners(s.directory.rows, merchant) - {change.key.user} != {})
    case _ => true
  }

  ghost predicate RunsOk(s: State, merchant: string) {
    forall r <- s.runs :: RunOk(s, s.runs[r], merchant)
  }

  ghost predicate Inv(s: State, merchant: string) {
    HasOwner(s.directory.rows, merchant) && RunsOk(s, merchant)
  }

  /** A landed write that loses no owner of the merchant takes nobody from its owners, and one that
      does takes the target only. */
  lemma OwnersAfterWrite(rows: Rows, q: Request, change: Change, merchant: string)
    ensures var before, after := Owners(rows, merchant), Owners(Applied(rows, q, change), merchant);
            if change.key.merchant == merchant && LosesOwner(rows, change) then after == before - {change.key.user}
            else before <= after
  {
    OwnersAreOwners(rows, change.key.merchant, change.key.user);
    match change
    case Remove(key) => OwnersAfterRemoval(rows, key, merchant);
    case Store(key, role) => OwnersAfterStore(rows, key, role, merchant);
  }

  lemma WriteKeepsOthers(s: State, r: nat, c: Calls, other: Run, merchant: string)
    requires r in s.runs && s.runs[r].pc.WriteRow? && RunOk(s, other, merchant)
    ensures RunOk(Step(s, r, c), other, merchant)
  {
    hide Owners;
    var change, s' := s.runs[r].pc.change, Step(s, r, c);
    OwnersAfterWrite(s.directory.rows, s.runs[r].request, change, merchant);
    if other.pc.WriteRow? && other.pc.read.Some? && NoLossSince(s'.log, other.pc.checked, merchant) && s'.log != s.log {
      assert !TakesOwner(s'.log[|s.log|], merchant);
      assert forall i :: 0 <= i < |s.log| ==> s'.log[i] == s.log[i];
      assert NoLossSince(s.log, other.pc.checked, merchant);
    }
  }

  /** A write leaves the merchant without an owner exactly when it takes the last one. */
  lemma WriteLosesExactlyTheLast(s: State, r: nat, c: Calls, merchant: string)
    requires Inv(s, merchant) && r in s.runs && s.runs[r].pc.WriteRow?
    ensures HasOwner(Step(s, r, c).directory.rows, merchant) <==> !TakesLastOwner(s, Advance(r, c), merchant)
  {
    var change, rows := s.runs[r].pc.change, s.directory.rows;
    OwnersAfterWrite(rows, s.runs[r].request, change, merchant);
    OwnersAreOwners(rows, change.key.merchant, change.key.user);
    assert RunOk(s, s.runs[r], merchant);
    hide Owners;
  }

  /** A step that reads leaves its run with what the invariant asks of it. */
  lemma ReaderIsOk(s: State, r: nat, c: Calls, merchant: string)
    requires Inv(s, merchant) && r in s.runs && !s.runs[r].pc.WriteRow? && GenuineStep(s, Advance(r, c))
    ensures r in Step(s, r, c).runs && RunOk(Step(s, r, c), Step(s, r, c).runs[r], merchant)
  {
    var pc, rows := s.runs[r].pc, s.directory.rows;
    assert RunOk(s, s.runs[r], merchant);
    if pc.ReadMember? { OwnersAreOwners(rows, pc.change.key.merchant, pc.change.key.user); }
    if pc.AskOwners? && c.owners.Some? {
      LimitedQueryFindsAnotherOwner(rows, pc.change.key.merchant, c.owners.value, pc.change.key.user);
    }
    hide Owners, AnswersOwnerQuery, SomeoneElse, Authorized;
  }

  lemma ReadKeeps(s: State, r: nat, c: Calls, merchant: string)
    requires Inv(s, merchant) && r in s.runs && !s.runs[r].pc.WriteRow? && GenuineStep(s, Advance(r, c))
    ensures Inv(Step(s, r, c), merchant)
  {
    var s' := Step(s, r, c);
    ReaderIsOk(s, r, c, merchant);
    hide Owners, Authorized, AfterRead, SomeoneElse;
    forall x <- s'.runs ensures RunOk(s', s'.runs[x], merchant) {
      if x != r { assert RunOk(s, s.runs[x], merchant); }
    }
  }

  /** One step, of any run. */
  lemma StepLosesExactlyTheLast(s: State, a: Action, merchant: string)
    requires Inv(s, merchant) && GenuineStep(s, a)
    ensures RunsOk(Next(s, a), merchant)
    ensures HasOwner(Next(s, a).directory.rows, merchant) <==> !TakesLastOwner(s, a, merchant)
  {
    match a
    case Begin(_, _, _) =>
    case Advance(r, c) =>
      if r in s.runs && s.runs[r].pc.WriteRow? {
        WriteLosesExactlyTheLast(s, r, c, merchant);
        forall x <- s.runs | x != r ensures RunOk(Step(s, r, c), s.runs[x], merchant) {
          WriteKeepsOthers(s, r, c, s.runs[x], merchant);
        }
      } else if r in s.runs {
        ReadKeeps(s, r, c, merchant);
      }
  }

  lemma {:induction false} KeepsOverARun(s: State, history: seq<Action>, merchant: string)
    requires Inv(s, merchant) && Genuine(s, history)
    ensures KeepsAnOwner(s, history, merchant) <==> !MeetsTakingTheLast(s, history, merchant)
    decreases |history|
  {
    hide GenuineStep, TakesLastOwner, HasOwner, RunsOk;
    if history != [] {
      var s' := Next(s, history[0]);
      StepLosesExactlyTheLast(s, history[0], merchant);
      if HasOwner(s'.directory.rows, merchant) { KeepsOverARun(s', history[1..], merchant); }
    }
  }

  /** Over every interleaving of handlers whose owner queries are answered genuinely, a merchant with
      an owner has one at every moment if and only if no write takes its only owner without the
      membership read, or after another owner was lost since the owner check. */
  lemma AnOwnerRemainsExactly(d: Directory, history: seq<Action>, merchant: string)
    requires HasOwner(d.rows, merchant) && Genuine(Initial(d), history)
    ensures KeepsAnOwner(Initial(d), history, merchant) <==> !MeetsTakingTheLast(Initial(d), history, merchant)
  {
    KeepsOverARun(Initial(d), history, merchant);
  }

  lemma {:induction false} NoOvertakingNoLast(s: State, history: seq<Action>, merchant: string)
    requires !MeetsOvertaking(s, history, merchant)
    ensures !MeetsTakingTheLast(s, history, merchant)
    decreases |history|
  {
    if history != [] { NoOvertakingNoLast(Next(s, history[0]), history[1..], merchant); }
  }

  lemma {:induction false} KeptToTheEnd(s: State, history: seq<Action>, merchant: string)
    requires KeepsAnOwner(s, history, merchant)
    ensures HasOwner(Exec(s, history).directory.rows, merchant)
    decreases |history|
  {
    if history != [] { KeptToTheEnd(Next(s, history[0]), history[1..], merchant); }
  }

  /** In particular a merchant keeps an owner when no owner-taking write is overtaken at all. */
  lemma AnOwnerRemainsUnlessOvertaken(d: Directory, history: seq<Action>, merchant: string)
    requires HasOwner(d.rows, merchant) && Genuine(Initial(d), history)
             && !MeetsOvertaking(Initial(d), history, merchant)
    ensures HasOwner(Exec(Initial(d), history).directory.rows, merchant)
  {
    NoOvertakingNoLast(Initial(d), history, merchant);
    AnOwnerRemainsExactly(d, history, merchant);
    KeptToTheEnd(Initial(d), history, merchant);
  }

  // --- admins --------------------------------------------------------------------------------

  predicate IsPrivileged(role: Option<Role>) {
    role == Some(Owner) || role == Some(Admin)
  }

  /** The last write to the row since that moment, if any, left it owner or admin. */
  predicate PromotedSince(log: seq<Landed>, since: nat, key: Membership) {
    exists i :: since <= i < |log| && log[i].key == key && IsPrivileged(log[i].after)
                && forall j :: i < j < |log| ==> log[j].key != key
  }

  /** What an admin may ask for. */
  predicate AdminChange(change: Change) {
    change.Store? ==> change.role == Member || change.role == Viewer
  }

  /** An admin's run read its target as no owner or admin, so the target is one now exactly when it
      was promoted since. */
  ghost predicate AdminRunOk(s: State, run: Run) {
    match run.pc
    case ReadMember(Holding(Admin), change) => AdminChange(change)
    case AskOwners(actor, _, _) => actor != Holding(Admin)
    case WriteRow(Holding(Admin), change, read, _) =>
      && AdminChange(change)
      && (read.Some? ==>
            && read.value <= |s.log|
            && (IsPrivileged(RoleOf(s.directory.rows, change.key)) <==> PromotedSince(s.log, read.value, change.key)))
    case _ => true
  }

  ghost predicate AdminInv(s: State) {
    forall r <- s.runs :: AdminRunOk(s, s.runs[r])
  }

  lemma PromotionByLast(log: seq<Landed>, w: Landed, since: nat, key: Membership)
    requires since <= |log|
    ensures PromotedSince(log + [w], since, key) <==>
              if w.key == key then IsPrivileged(w.after) else PromotedSince(log, since, key)
  {
    var log' := log + [w];
    assert log'[|log|] == w;
    if PromotedSince(log', since, key) {
      var i :| since <= i < |log'| && log'[i].key == key && IsPrivileged(log'[i].after)
               && forall j :: i < j < |log'| ==> log'[j].key != key;
      if i < |log| {
        assert log[i] == log'[i] && forall j :: i < j < |log| ==> log[j] == log'[j];
      }
    }
    if w.key != key && PromotedSince(log, since, key) {
      var i :| since <= i < |log| && log[i].key == key && IsPrivileged(log[i].after)
               && forall j :: i < j < |log| ==> log[j].key != key;
      assert log'[i] == log[i];
    }
  }

  lemma OtherRowsKeepTheirRole(rows: Rows, q: Request, change: Change, key: Membership)
    requires key != change.key
    ensures RoleOf(Applied(rows, q, change), key) == RoleOf(rows, key)
  {
  }

  lemma AdminWriteStep(s: State, r: nat, c: Calls, other: Run)
    requires r in s.runs && s.runs[r].pc.WriteRow? && AdminRunOk(s, other)
    ensures AdminRunOk(Step(s, r, c), other)
  {
    var q, change, s' := s.runs[r].request, s.runs[r].pc.change, Step(s, r, c);
    if s'.log != s.log && other.pc.WriteRow? && other.pc.read.Some? && other.pc.read.value <= |s.log| {
      var key := other.pc.change.key;
      PromotionByLast(s.log, s'.log[|s.log|], other.pc.read.value, key);
      if key != change.key { OtherRowsKeepTheirRole(s.directory.rows, q, change, key); }
      hide PromotedSince, Applied;
    }
  }

  lemma AdminReadStep(s: State, r: nat, c: Calls)
    requires AdminInv(s) && r in s.runs && !s.runs[r].pc.WriteRow?
    ensures r in Step(s, r, c).runs && AdminRunOk(Step(s, r, c), Step(s, r, c).runs[r])
  {
    assert AdminRunOk(s, s.runs[r]);
    hide OrganizationWithRole;
  }

  lemma AdminNext(s: State, a: Action)
    requires AdminInv(s)
    ensures AdminInv(Next(s, a))
  {
    match a
    case Begin(_, _, _) =>
    case Advance(r, c) =>
      if r in s.runs {
        var s' := Step(s, r, c);
        if !s.runs[r].pc.WriteRow? { AdminReadStep(s, r, c); }
        hide Authorized, AfterRead, SomeoneElse, PromotedSince;
        forall x <- s'.runs ensures AdminRunOk(s', s'.runs[x]) {
          if x != r {
            assert AdminRunOk(s, s.runs[x]);
            if s.runs[r].pc.WriteRow? { AdminWriteStep(s, r, c, s.runs[x]); }
          }
        }
      }
  }

  lemma {:induction false} AdminOverARun(s: State, history: seq<Action>)
    requires AdminInv(s)
    ensures AdminInv(Exec(s, history))
    decreases |history|
  {
    hide AdminInv;
    if history != [] {
      AdminNext(s, history[0]);
      AdminOverARun(Next(s, history[0]), history[1..]);
    }
  }

  lemma AdminWriteHits(rows: Rows, q: Request, change: Change)
    requires AdminChange(change)
    ensures Privileged(Applied(rows, q, change)) != Privileged(rows) <==> IsPrivileged(RoleOf(rows, change.key))
  {
    var after := Applied(rows, q, change);
    assert forall k :: k != change.key ==> RoleOf(after, k) == RoleOf(rows, k);
    if IsPrivileged(RoleOf(rows, change.key)) {
      assert change.key in Privileged(rows) && change.key !in Privileged(after);
    } else {
      assert Privileged(after) == Privileged(rows);
    }
  }

  /** Over every interleaving, an admin's write that lands changes who is an owner or admin if and
      only if its target is one at that moment; when the membership was read, that is the case if
      and only if the target was promoted since the read. */
  lemma AdminWriteReachesPrivilegedRowsExactly(d: Directory, history: seq<Action>, r: nat, c: Calls)
    requires var s := Exec(Initial(d), history);
             r in s.runs && s.runs[r].pc.WriteRow? && s.runs[r].pc.actor == Holding(Admin) && Lands(c.write)
    ensures var s := Exec(Initial(d), history); var pc := s.runs[r].pc;
            Privileged(Next(s, Advance(r, c)).directory.rows) != Privileged(s.directory.rows) <==>
              if pc.read.Some? then PromotedSince(s.log, pc.read.value, pc.change.key)
              else IsPrivileged(RoleOf(s.directory.rows, pc.change.key))
  {
    AdminOverARun(Initial(d), history);
    var s := Exec(Initial(d), history);
    assert AdminRunOk(s, s.runs[r]);
    AdminWriteHits(s.directory.rows, s.runs[r].request, s.runs[r].pc.change);
    hide PromotedSince, Privileged, Applied;
  }

  // --- the failing input --------------------------------------------------------------------

  /** All reads answered, the write stored, and a genuine owner list. */
  predicate Undisturbed(d: Directory, merchant: string, c: Calls) {
    && c.organizationRead && c.actorRead && c.merchantRead && c.memberRead && c.write == Stored
    && c.owners.Some? && AnswersOwnerQuery(d.rows, merchant, c.owners.value)
  }

  lemma {:induction false} ExecAppend(s: State, h: seq<Action>, a: Action)
    ensures Exec(s, h + [a]) == Next(Exec(s, h), a)
    ensures Genuine(s, h + [a]) <==> Genuine(s, h) && GenuineStep(Exec(s, h), a)
    decreases |h|
  {
    hide GenuineStep, Next;
    if h == [] {
      assert [a][1..] == [];
    } else {
      assert (h + [a])[1..] == h[1..] + [a];
      ExecAppend(Next(s, h[0]), h[1..], a);
    }
  }

  lemma Play(s: State, h: seq<Action>, a: Action) returns (h': seq<Action>)
    requires Genuine(s, h) && GenuineStep(Exec(s, h), a)
    ensures h' == h + [a] && Exec(s, h') == Next(Exec(s, h), a) && Genuine(s, h')
  {
    h' := h + [a];
    ExecAppend(s, h, a);
  }

  /** One owner asks to remove the other; the request gets past all its checks. */
  lemma PassChecks(d: Directory, h: seq<Action>, r: nat, org: string, a: string, b: string, c: Calls)
    returns (h': seq<Action>)
    requires org != "" && org in d.organizations && b != "" && a != b
    requires {a, b} <= Owners(d.rows, d.organizations[org]) && Undisturbed(d, d.organizations[org], c)
    requires var s := Exec(Initial(d), h); s.directory == d && r !in s.runs && s.log == [] && Genuine(Initial(d), h)
    ensures var s, s' := Exec(Initial(d), h), Exec(Initial(d), h');
            && Genuine(Initial(d), h') && s'.directory == d && s'.log == []
            && s'.runs == s.runs[r := Run(Principal(a, false), DeleteMember(org, b),
                                          WriteRow(Holding(Owner), Remove(Membership(d.organizations[org], b)),
                                                   Some(0), 0))]
  {
    var merchant := d.organizations[org];
    OwnersAreOwners(d.rows, merchant, a);
    OwnersAreOwners(d.rows, merchant, b);
    LimitedQueryFindsAnotherOwner(d.rows, merchant, c.owners.value, b);
    assert a in Owners(d.rows, merchant) - {b};
    hide Owners, AnswersOwnerQuery, SomeoneElse;
    h' := Play(Initial(d), h, Begin(r, Principal(a, false), DeleteMember(org, b)));
    h' := Play(Initial(d), h', Advance(r, c));
    h' := Play(Initial(d), h', Advance(r, c));
    h' := Play(Initial(d), h', Advance(r, c));
  }

  lemma BothPass(d: Directory, org: string, a: string, b: string, ca: Calls, cb: Calls) returns (history: seq<Action>)
    requires org != "" && org in d.organizations && a != "" && b != "" && a != b
    requires var merchant := d.organizations[org];
             Owners(d.rows, merchant) == {a, b} && Undisturbed(d, merchant, ca) && Undisturbed(d, merchant, cb)
    ensures Genuine(Initial(d), history)
    ensures var s, merchant := Exec(Initial(d), history), d.organizations[org];
            && s.directory == d && s.log == []
            && s.runs == map[1 := Run(Principal(a, false), DeleteMember(org, b),
                                      WriteRow(Holding(Owner), Remove(Membership(merchant, b)), Some(0), 0)),
                             2 := Run(Principal(b, false), DeleteMember(org, a),
                                      WriteRow(Holding(Owner), Remove(Membership(merchant, a)), Some(0), 0))]
  {
    hide Undisturbed, Owners;
    history := PassChecks(d, [], 1, org, a, b, ca);
    history := PassChecks(d, history, 2, org, b, a, cb);
  }

  lemma RemovalLands(s: State, r: nat, actor: Actor, key: Membership, c: Calls)
    requires r in s.runs && s.runs[r].pc == WriteRow(actor, Remove(key), Some(0), 0) && c.write == Stored
    ensures var s' := Next(s, Advance(r, c));
            && s'.directory == s.directory.(rows := s.directory.rows - {key})
            && s'.runs == s.runs[r := s.runs[r].(pc := Ended(Done))]
    ensures GenuineStep(s, Advance(r, c))
  {
  }

  /** Without that condition the guarantee fails: when the only two owners of any merchant remove
      each other and both requests pass their checks before either write, both writes land and
      no owner is left, although every read is answered. */
  lemma OverlappingRemovalsLeaveNoOwner(d: Directory, org: string, a: string, b: string, ca: Calls, cb: Calls)
    returns (history: seq<Action>)
    requires org != "" && org in d.organizations && a != "" && b != "" && a != b
    requires var merchant := d.organizations[org];
             Owners(d.rows, merchant) == {a, b} && Undisturbed(d, merchant, ca) && Undisturbed(d, merchant, cb)
    ensures Genuine(Initial(d), history)
    ensures var s := Exec(Initial(d), history);
            && !HasOwner(s.directory.rows, d.organizations[org])
            && s.runs == map[1 := Run(Principal(a, false), DeleteMember(org, b), Ended(Done)),
                             2 := Run(Principal(b, false), DeleteMember(org, a), Ended(Done))]
  {
    var merchant := d.organizations[org];
    var rowA, rowB := Membership(merchant, a), Membership(merchant, b);
    NobodyLeft(d.rows, merchant, a, b);
    history := BothPass(d, org, a, b, ca, cb);
    hide HasOwner, Owners, Next, Genuine, GenuineStep, Exec;
    assert ca.write == Stored && cb.write == Stored;
    RemovalLands(Exec(Initial(d), history), 1, Holding(Owner), rowB, ca);
    history := Play(Initial(d), history, Advance(1, ca));
    RemovalLands(Exec(Initial(d), history), 2, Holding(Owner), rowA, cb);
    history := Play(Initial(d), history, Advance(2, cb));
  }

  lemma NobodyLeft(rows: Rows, merchant: string, a: string, b: string)
    requires Owners(rows, merchant) == {a, b}
    ensures !HasOwner(rows - {Membership(merchant, b)} - {Membership(merchant, a)}, merchant)
  {
    OwnersAfterRemoval(rows, Membership(merchant, b), merchant);
    OwnersAfterRemoval(rows - {Membership(merchant, b)}, Membership(merchant, a), merchant);
  }

  /** An admin asks to remove a member who is neither owner nor admin when the request is checked. */
  lemma AdminPasses(d: Directory, org: string, admin: string, v: string, c: Calls) returns (history: seq<Action>)
    requires org != "" && org in d.organizations && v != "" && Undisturbed(d, d.organizations[org], c)
    requires RoleOf(d.rows, Membership(d.organizations[org], admin)) == Some(Admin)
    requires RoleOf(d.rows, Membership(d.organizations[org], v)) == Some(Viewer)
    ensures Genuine(Initial(d), history)
    ensures Exec(Initial(d), history)
         == State(d, map[1 := Run(Principal(admin, false), DeleteMember(org, v),
                                  WriteRow(Holding(Admin), Remove(Membership(d.organizations[org], v)),
                                           Some(0), 0))], [])
  {
    hide AnswersOwnerQuery;
    history := Play(Initial(d), [], Begin(1, Principal(admin, false), DeleteMember(org, v)));
    history := Play(Initial(d), history, Advance(1, c));
    history := Play(Initial(d), history, Advance(1, c));
  }

  /** The admin's removal of the member is about to be written, and the member is an owner by now. */
  predicate PromotedMeanwhile(s: State, key: Membership) {
    && RoleOf(s.directory.rows, key) == Some(Owner)
    && 1 in s.runs && s.runs[1].pc.WriteRow?
    && s.runs[1].pc.actor == Holding(Admin) && s.runs[1].pc.change == Remove(key)
  }

  /** Then an owner promotes that member, and the admin's write still lands: an admin has removed an
      owner, although every read is answered. */
  lemma APromotedMemberIsRemoved(d: Directory, org: string, admin: string, owner: string, v: string, c: Calls)
    returns (history: seq<Action>)
    requires org != "" && org in d.organizations && v != "" && Undisturbed(d, d.organizations[org], c)
    requires RoleOf(d.rows, Membership(d.organizations[org], admin)) == Some(Admin)
    requires RoleOf(d.rows, Membership(d.organizations[org], owner)) == Some(Owner)
    requires RoleOf(d.rows, Membership(d.organizations[org], v)) == Some(Viewer)
    ensures Genuine(Initial(d), history + [Advance(1, c)])
    ensures PromotedMeanwhile(Exec(Initial(d), history), Membership(d.organizations[org], v))
    ensures Membership(d.organizations[org], v) !in Exec(Initial(d), history + [Advance(1, c)]).directory.rows
  {
    var key := Membership(d.organizations[org], v);
    history := AdminPasses(d, org, admin, v, c);
    hide AnswersOwnerQuery;
    history := Play(Initial(d), history, Begin(2, Principal(owner, false), UpdateMember(org, v, Some(Owner))));
    history := Play(Initial(d), history, Advance(2, c));
    history := Play(Initial(d), history, Advance(2, c));
    history := Play(Initial(d), history, Advance(2, c));
    assert Exec(Initial(d), history).directory.rows == d.rows[key := Owner];
    RemovalLands(Exec(Initial(d), history), 1, Holding(Admin), key, c);
    var _ := Play(Initial(d), history, Advance(1, c));
  }
}
