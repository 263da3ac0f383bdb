/** Console membership: creating, changing and removing the members of a merchant. Each handler
    is one step over the membership table; the answer of every database call is a parameter. */
module Members {
  import opened Wrappers

  /** The roles a membership row can hold. */
  datatype Role = Owner | Admin | Member | Viewer

  datatype Actor = PlatformAdmin | Holding(role: Role)

  datatype Membership = Membership(merchant: string, user: string)

  type Rows = map<Membership, Role>

  datatype Directory = Directory(organizations: map<string, string>, rows: Rows)

  datatype Principal = Principal(user: string, platformAdmin: bool)

  datatype Write = Stored | NotStored | ReplyLost

  /** What the database answers during one request: whether each read comes back, the user found
      for an email, the owner rows returned, and the fate of the write. */
  datatype Calls = Calls(organizationRead: bool, actorRead: bool, lookup: Option<string>, merchantRead: bool,
                         memberRead: bool, owners: Option<seq<string>>, write: Write)

  /** `requested` is None when the normalised role name is none of the four. */
  datatype Request =
    | CreateMember(org: string, email: string, requested: Option<Role>)
    | UpdateMember(org: string, user: string, requested: Option<Role>)
    | DeleteMember(org: string, user: string)

  datatype Response = OrganizationForbidden | EmailRequired | MemberRequired | RoleForbidden | UserNotFound
                    | MerchantNotFound | MemberNotFound | MemberForbidden | LastOwner | SaveFailed | Done

  // --- policies -------------------------------------------------------------------------

  predicate AssignableBy(actor: Actor, target: Option<Role>) {
    && target.Some?
    && match actor
       case PlatformAdmin => true
       case Holding(Owner) => true
       case Holding(Admin) => target.value.Member? || target.value.Viewer?
       case _ => false
  }

  predicate ManageableBy(actor: Actor, existing: Role) {
    match actor
    case PlatformAdmin => true
    case Holding(Owner) => true
    case Holding(Admin) => existing.Member? || existing.Viewer?
    case _ => false
  }

  function OrganizationRole(d: Directory, who: Principal, org: string, c: Calls): Option<Actor> {
    if org == "" then None
    else if who.platformAdmin then Some(PlatformAdmin)
    else if !c.organizationRead || org !in d.organizations then None
    else
      var key := Membership(d.organizations[org], who.user);
      if c.actorRead && key in d.rows then Some(Holding(d.rows[key])) else None
  }

  /** The actor, when the organization is open to owners, admins and platform admins. */
  function OrganizationWithRole(d: Directory, who: Principal, org: string, c: Calls): Option<Actor> {
    var actor := OrganizationRole(d, who, org, c);
    if actor.Some? && actor.value in {PlatformAdmin, Holding(Owner), Holding(Admin)} then actor else None
  }

  // --- owners ---------------------------------------------------------------------------

  function Owners(rows: Rows, merchant: string): set<string> {
    set k <- rows | k.merchant == merchant && rows[k] == Owner :: k.user
  }

  const OWNER_LIMIT: nat := 10

  predicate Distinct(s: seq<string>) {
    forall i, j :: 0 <= i < j < |s| ==> s[i] != s[j]
  }

  /** A genuine answer to the owner query: up to ten owners, in any order, each once. */
  predicate AnswersOwnerQuery(rows: Rows, merchant: string, answer: seq<string>) {
    && Distinct(answer) && (forall u <- answer :: u in Owners(rows, merchant))
    && |answer| == if |Owners(rows, merchant)| < OWNER_LIMIT then |Owners(rows, merchant)| else OWNER_LIMIT
  }

  predicate SomeoneElse(answer: Option<seq<string>>, user: string) {
    answer.Some? && exists u <- answer.value :: u != user
  }

  lemma {:induction false} DistinctCounts(s: seq<string>)
    requires Distinct(s)
    ensures |(set u <- s)| == |s|
  {
    if s != [] {
      var front, last := s[..|s| - 1], s[|s| - 1];
      DistinctCounts(front);
      assert (set u <- s) == (set u <- front) + {last};
    }
  }

  /** Ten rows are enough: the limited answer names an owner other than `user` exactly when there
      is one. */
  lemma LimitedQueryFindsAnotherOwner(rows: Rows, merchant: string, answer: seq<string>, user: string)
    requires AnswersOwnerQuery(rows, merchant, answer)
    ensures SomeoneElse(Some(answer), user) <==> Owners(rows, merchant) - {user} != {}
  {
    var owners, named := Owners(rows, merchant), set u <- answer;
    DistinctCounts(answer);
    if u :| u in owners - {user} && !SomeoneElse(Some(answer), user) {
      assert named <= {user} && {u} <= owners - named;
      SubsetIsNoLarger(named, {user});
      SubsetIsNoLarger({u}, owners - named);
      SubsetIsNoLarger(named + {u}, owners);
      assert false;
    }
    if SomeoneElse(Some(answer), user) {
      var u :| u in answer && u != user;
      assert u in owners - {user};
    }
  }

  lemma {:induction false} SubsetIsNoLarger(a: set<string>, b: set<string>)
    requires a <= b
    ensures |a| <= |b|
  {
    assert b == a + (b - a);
  }

  // --- the handlers ---------------------------------------------------------------------

  datatype Outcome = Outcome(rows: Rows, response: Response)

  predicate Lands(w: Write) {
    w != NotStored
  }

  function Written(w: Write): Response {
    if w == Stored then Done else SaveFailed
  }

  function Upsert(rows: Rows, key: Membership, role: Role, c: Calls): Outcome {
    Outcome(if Lands(c.write) then rows[key := role] else rows, Written(c.write))
  }

  function Create(d: Directory, who: Principal, q: Request, c: Calls): Outcome
    requires q.CreateMember?
  {
    var actor := OrganizationWithRole(d, who, q.org, c);
    if actor.None? then Outcome(d.rows, OrganizationForbidden)
    else if q.email == "" then Outcome(d.rows, EmailRequired)
    else if !AssignableBy(actor.value, q.requested) then Outcome(d.rows, RoleForbidden)
    else if c.lookup.None? || c.lookup.value == "" then Outcome(d.rows, UserNotFound)
    else if !c.merchantRead || q.org !in d.organizations then Outcome(d.rows, MerchantNotFound)
    else
      var key, role := Membership(d.organizations[q.org], c.lookup.value), q.requested.value;
      var known := c.memberRead && key in d.rows;
      if known && !ManageableBy(actor.value, d.rows[key]) then Outcome(d.rows, MemberForbidden)
      else if known && d.rows[key] == Owner && role != Owner && !SomeoneElse(c.owners, key.user) then
        Outcome(d.rows, LastOwner)
      else Upsert(d.rows, key, role, c)
  }

  function Update(d: Directory, who: Principal, q: Request, c: Calls): Outcome
    requires q.UpdateMember?
  {
    var actor := OrganizationWithRole(d, who, q.org, c);
    if actor.None? then Outcome(d.rows, OrganizationForbidden)
    else if q.user == "" then Outcome(d.rows, MemberRequired)
    else if !AssignableBy(actor.value, q.requested) then Outcome(d.rows, RoleForbidden)
    else if !c.merchantRead || q.org !in d.organizations then Outcome(d.rows, MerchantNotFound)
    else
      var key, role := Membership(d.organizations[q.org], q.user), q.requested.value;
      if !c.memberRead || key !in d.rows then Outcome(d.rows, MemberNotFound)
      else if !ManageableBy(actor.value, d.rows[key]) then Outcome(d.rows, MemberForbidden)
      else if d.rows[key] == Owner && role != Owner && !SomeoneElse(c.owners, q.user) then Outcome(d.rows, LastOwner)
      else Upsert(d.rows, key, role, c)
  }

  function Delete(d: Directory, who: Principal, q: Request, c: Calls): Outcome
    requires q.DeleteMember?
  {
    var actor := OrganizationWithRole(d, who, q.org, c);
    if actor.None? then Outcome(d.rows, OrganizationForbidden)
    else if q.user == "" then Outcome(d.rows, MemberRequired)
    else if !c.merchantRead || q.org !in d.organizations then Outcome(d.rows, MerchantNotFound)
    else
      var key := Membership(d.organizations[q.org], q.user);
      if !c.memberRead || key !in d.rows then Outcome(d.rows, MemberNotFound)
      else if !ManageableBy(actor.value, d.rows[key]) then Outcome(d.rows, MemberForbidden)
      else if d.rows[key] == Owner && !SomeoneElse(c.owners, q.user) then Outcome(d.rows, LastOwner)
      else Outcome(if Lands(c.write) then d.rows - {key} else d.rows, Written(c.write))
  }

  function Handle(d: Directory, who: Principal, q: Request, c: Calls): Outcome {
    match q
    case CreateMember(_, _, _) => Create(d, who, q, c)
    case UpdateMember(_, _, _) => Update(d, who, q, c)
    case DeleteMember(_, _) => Delete(d, who, q, c)
  }

  /** The membership table and the handlers that change it. */
  class Console {
    const organizations: map<string, string>
    var rows: Rows

    constructor (organizations: map<string, string>)
      ensures this.organizations == organizations && rows == map[]
    {
      this.organizations := organizations;
      rows := map[];
    }

    function Now(): Directory
      reads this
    {
      Directory(organizations, rows)
    }

    method MerchantHasAnotherOwner(answer: Option<seq<string>>, excluding: string) returns (found: bool)
      ensures found == SomeoneElse(answer, excluding)
    {
      if answer.None? { return false; }
      for i := 0 to |answer.value|
        invariant forall j :: 0 <= j < i ==> answer.value[j] == excluding
      {
        if answer.value[i] != excluding {
          assert answer.value[i] in answer.value;
          return true;
        }
      }
      return false;
    }

    method MemberRole(key: Membership, answered: bool) returns (role: Option<Role>)
      ensures role == if answered && key in rows then Some(rows[key]) else None
    {
      if answered && key in rows { return Some(rows[key]); }
      return None;
    }

    method Save(key: Membership, role: Role, write: Write) returns (acknowledged: bool)
      modifies this
      ensures rows == if Lands(write) then old(rows)[key := role] else old(rows)
      ensures acknowledged == write.Stored?
    {
      if write != NotStored { rows := rows[key := role]; }
      return write == Stored;
    }

    method ConsoleCreateMember(who: Principal, q: Request, c: Calls) returns (response: Response)
      requires q.CreateMember?
      modifies this
      ensures Outcome(rows, response) == Create(old(Now()), who, q, c)
    {
      var actor := OrganizationWithRole(Now(), who, q.org, c);
      if actor.None? { return OrganizationForbidden; }
      if q.email == "" { return EmailRequired; }
      if !AssignableBy(actor.value, q.requested) { return RoleForbidden; }
      if c.lookup.None? || c.lookup.value == "" { return UserNotFound; }
      if !c.merchantRead || q.org !in organizations { return MerchantNotFound; }
      var key := Membership(organizations[q.org], c.lookup.value);
      var existing := MemberRole(key, c.memberRead);
      if existing.Some? && !ManageableBy(actor.value, existing.value) { return MemberForbidden; }
      if existing == Some(Owner) && q.requested != Some(Owner) {
        var another := MerchantHasAnotherOwner(c.owners, key.user);
        if !another { return LastOwner; }
      }
      var ok := Save(key, q.requested.value, c.write);
      return if ok then Done else SaveFailed;
    }

    method ConsoleUpdateMember(who: Principal, q: Request, c: Calls) returns (response: Response)
      requires q.UpdateMember?
      modifies this
      ensures Outcome(rows, response) == Update(old(Now()), who, q, c)
    {
      var actor := OrganizationWithRole(Now(), who, q.org, c);
      if actor.None? { return OrganizationForbidden; }
      if q.user == "" { return MemberRequired; }
      if !AssignableBy(actor.value, q.requested) { return RoleForbidden; }
      if !c.merchantRead || q.org !in organizations { return MerchantNotFound; }
      var key := Membership(organizations[q.org], q.user);
      var existing := MemberRole(key, c.memberRead);
      if existing.None? { return MemberNotFound; }
      if !ManageableBy(actor.value, existing.value) { return MemberForbidden; }
      if existing.value == Owner && q.requested != Some(Owner) {
        var another := MerchantHasAnotherOwner(c.owners, q.user);
        if !another { return LastOwner; }
      }
      var ok := Save(key, q.requested.value, c.write);
      return if ok then Done else SaveFailed;
    }

    method ConsoleDeleteMember(who: Principal, q: Request, c: Calls) returns (response: Response)
      requires q.DeleteMember?
      modifies this
      ensures Outcome(rows, response) == Delete(old(Now()), who, q, c)
    {
      var actor := OrganizationWithRole(Now(), who, q.org, c);
      if actor.None? { return OrganizationForbidden; }
      if q.user == "" { return MemberRequired; }
      if !c.merchantRead || q.org !in organizations { return MerchantNotFound; }
      var key := Membership(organizations[q.org], q.user);
      var existing := MemberRole(key, c.memberRead);
      if existing.None? { return MemberNotFound; }
      if !ManageableBy(actor.value, existing.value) { return MemberForbidden; }
      if existing.value == Owner {
        var another := MerchantHasAnotherOwner(c.owners, q.user);
        if !another { return LastOwner; }
      }
      if c.write != NotStored { rows := rows - {key}; }
      return if c.write == Stored then Done else SaveFailed;
    }
  }

  // --- what a step keeps ----------------------------------------------------------------

  /** The owner query of a request asks about the merchant of its organization. */
  predicate Genuine(d: Directory, q: Request, c: Calls) {
    q.org in d.organizations && c.owners.Some? ==> AnswersOwnerQuery(d.rows, d.organizations[q.org], c.owners.value)
  }

  predicate HasOwner(rows: Rows, merchant: string) {
    Owners(rows, merchant) != {}
  }

  /** A create request gets past its checks up to the membership read, which is not answered; the
      target is then taken for a new member and the write lands. */
  predicate BlindWrite(d: Directory, who: Principal, q: Request, c: Calls) {
    && q.CreateMember? && !c.memberRead && Lands(c.write) && q.email != ""
    && c.lookup.Some? && c.lookup.value != "" && c.merchantRead && q.org in d.organizations
    && OrganizationWithRole(d, who, q.org, c).Some?
    && AssignableBy(OrganizationWithRole(d, who, q.org, c).value, q.requested)
  }

  function Target(d: Directory, q: Request, c: Calls): Membership
    requires q.org in d.organizations && (q.CreateMember? ==> c.lookup.Some?)
  {
    Membership(d.organizations[q.org], if q.CreateMember? then c.lookup.value else q.user)
  }

  /** Every request changes at most the row it addresses, and a refusal changes nothing. */
  lemma OnlyTheTargetChanges(d: Directory, who: Principal, q: Request, c: Calls)
    ensures var o := Handle(d, who, q, c);
            o.rows != d.rows ==>
              && o.response in {Done, SaveFailed} && q.org in d.organizations && (q.CreateMember? ==> c.lookup.Some?)
              && o.rows - {Target(d, q, c)} == d.rows - {Target(d, q, c)}
  {
  }

  lemma OwnersAfterStore(rows: Rows, key: Membership, role: Role, merchant: string)
    ensures Owners(rows[key := role], merchant)
         == if key.merchant != merchant then Owners(rows, merchant)
            else Owners(rows, merchant) - {key.user} + if role == Owner then {key.user} else {}
  {
    var before, after := Owners(rows, merchant), Owners(rows[key := role], merchant);
    forall u ensures u in after <==> if Membership(merchant, u) == key then role == Owner else u in before
    {
      OwnersAreOwners(rows, merchant, u);
      OwnersAreOwners(rows[key := role], merchant, u);
    }
  }

  lemma OwnersAfterRemoval(rows: Rows, key: Membership, merchant: string)
    ensures Owners(rows - {key}, merchant)
         == if key.merchant != merchant then Owners(rows, merchant) else Owners(rows, merchant) - {key.user}
  {
    var before, after := Owners(rows, merchant), Owners(rows - {key}, merchant);
    forall u ensures u in after <==> u in before && Membership(merchant, u) != key {
      OwnersAreOwners(rows, merchant, u);
      OwnersAreOwners(rows - {key}, merchant, u);
    }
  }

  lemma OwnersAreOwners(rows: Rows, merchant: string, u: string)
    ensures u in Owners(rows, merchant) <==> Membership(merchant, u) in rows && rows[Membership(merchant, u)] == Owner
  {
  }

  lemma OwnerCheckIsExact(d: Directory, q: Request, c: Calls, key: Membership)
    requires q.org in d.organizations && key.merchant == d.organizations[q.org] && Genuine(d, q, c)
    ensures SomeoneElse(c.owners, key.user) <==> c.owners.Some? && Owners(d.rows, key.merchant) - {key.user} != {}
  {
    if c.owners.Some? { LimitedQueryFindsAnotherOwner(d.rows, key.merchant, c.owners.value, key.user); }
  }

  lemma CreateLosesOnlyBlindly(d: Directory, who: Principal, q: Request, c: Calls, merchant: string)
    requires q.CreateMember? && HasOwner(d.rows, merchant) && Genuine(d, q, c)
    ensures !HasOwner(Create(d, who, q, c).rows, merchant) <==>
              && BlindWrite(d, who, q, c) && d.organizations[q.org] == merchant
              && q.requested != Some(Owner) && Owners(d.rows, merchant) == {c.lookup.value}
  {
    hide Owners, AnswersOwnerQuery, SomeoneElse, OrganizationWithRole;
    if q.org in d.organizations && c.lookup.Some? && q.requested.Some? {
      var key := Target(d, q, c);
      OwnersAreOwners(d.rows, merchant, key.user);
      OwnersAfterStore(d.rows, key, q.requested.value, merchant);
      OwnerCheckIsExact(d, q, c, key);
    }
  }

  lemma UpdateKeepsAnOwner(d: Directory, who: Principal, q: Request, c: Calls, merchant: string)
    requires q.UpdateMember? && HasOwner(d.rows, merchant) && Genuine(d, q, c)
    ensures HasOwner(Update(d, who, q, c).rows, merchant)
  {
    hide Owners, AnswersOwnerQuery, SomeoneElse, OrganizationWithRole;
    if q.org in d.organizations && q.requested.Some? {
      var key := Target(d, q, c);
      OwnersAreOwners(d.rows, merchant, key.user);
      OwnersAfterStore(d.rows, key, q.requested.value, merchant);
      OwnerCheckIsExact(d, q, c, key);
    }
  }

  lemma DeleteKeepsAnOwner(d: Directory, who: Principal, q: Request, c: Calls, merchant: string)
    requires q.DeleteMember? && HasOwner(d.rows, merchant) && Genuine(d, q, c)
    ensures HasOwner(Delete(d, who, q, c).rows, merchant)
  {
    hide Owners, AnswersOwnerQuery, SomeoneElse, OrganizationWithRole;
    if q.org in d.organizations {
      var key := Target(d, q, c);
      OwnersAreOwners(d.rows, merchant, key.user);
      OwnersAfterRemoval(d.rows, key, merchant);
      OwnerCheckIsExact(d, q, c, key);
    }
  }

  /** A merchant with an owner is left without one by exactly one kind of step: a create that
      could not read the membership of the only owner and stores a lesser role over it. */
  lemma OwnerIsLostExactlyByABlindDemotion(d: Directory, who: Principal, q: Request, c: Calls, merchant: string)
    requires HasOwner(d.rows, merchant) && Genuine(d, q, c)
    ensures !HasOwner(Handle(d, who, q, c).rows, merchant) <==>
              && BlindWrite(d, who, q, c) && d.organizations[q.org] == merchant
              && q.requested != Some(Owner) && Owners(d.rows, merchant) == {c.lookup.value}
  {
    match q
    case CreateMember(_, _, _) => CreateLosesOnlyBlindly(d, who, q, c, merchant);
    case UpdateMember(_, _, _) => UpdateKeepsAnOwner(d, who, q, c, merchant);
    case DeleteMember(_, _) => DeleteKeepsAnOwner(d, who, q, c, merchant);
  }

  // --- what is granted ------------------------------------------------------------------

  /** Every read of a request comes back, the write is stored, and the user of an email is found. */
  predicate Served(d: Directory, q: Request, c: Calls) {
    && c.organizationRead && c.actorRead && c.merchantRead && c.memberRead && c.write == Stored
    && q.org != "" && q.org in d.organizations && Genuine(d, q, c) && c.owners.Some?
    && (if q.CreateMember? then q.email != "" && c.lookup.Some? && c.lookup.value != "" else q.user != "")
    && (!q.DeleteMember? ==> q.requested.Some?)
  }

  function RoleIn(d: Directory, merchant: string, user: string): Option<Role> {
    if Membership(merchant, user) in d.rows then Some(d.rows[Membership(merchant, user)]) else None
  }

  /** Platform admins and owners manage everyone; admins manage, and appoint, members and viewers. */
  predicate Manages(who: Principal, own: Option<Role>, role: Role) {
    who.platformAdmin || own == Some(Owner) || (own == Some(Admin) && (role == Member || role == Viewer))
  }

  /** Who may make a request, in one sentence: someone who manages both the role asked for and the
      target's present role, if the target is there at all unless it is a create, and if the
      merchant's last owner stays one. */
  ghost predicate MayRequest(d: Directory, who: Principal, q: Request, key: Membership) {
    var own, present := RoleIn(d, key.merchant, who.user), RoleIn(d, key.merchant, key.user);
    && (!q.DeleteMember? ==> q.requested.Some? && Manages(who, own, q.requested.value))
    && (present.Some? ==> Manages(who, own, present.value))
    && (present.None? ==> q.CreateMember?)
    && (present == Some(Owner) && (q.DeleteMember? || q.requested != Some(Owner)) ==>
          Owners(d.rows, key.merchant) - {key.user} != {})
  }

  ghost predicate GrantedExactly(d: Directory, who: Principal, q: Request, key: Membership, o: Outcome) {
    && (o.response == Done <==> MayRequest(d, who, q, key))
    && o.rows == (if !MayRequest(d, who, q, key) then d.rows
                  else if q.DeleteMember? then d.rows - {key}
                  else d.rows[key := q.requested.value])
  }

  /** The two policies of the code ask the same thing of the actor. */
  lemma PoliciesAreManages(d: Directory, who: Principal, q: Request, c: Calls, role: Role)
    requires c.organizationRead && c.actorRead && q.org != "" && q.org in d.organizations
    ensures var actor, own := OrganizationWithRole(d, who, q.org, c), RoleIn(d, d.organizations[q.org], who.user);
            && (Manages(who, own, role) <==> actor.Some? && AssignableBy(actor.value, Some(role)))
            && (Manages(who, own, role) <==> actor.Some? && ManageableBy(actor.value, role))
  {
  }

  lemma CreateIsGrantedExactly(d: Directory, who: Principal, q: Request, c: Calls)
    requires Served(d, q, c) && q.CreateMember?
    ensures GrantedExactly(d, who, q, Membership(d.organizations[q.org], c.lookup.value), Create(d, who, q, c))
  {
    var key := Membership(d.organizations[q.org], c.lookup.value);
    OwnerCheckIsExact(d, q, c, key);
    if key in d.rows { PoliciesAreManages(d, who, q, c, d.rows[key]); }
    PoliciesAreManages(d, who, q, c, q.requested.value);
    hide SomeoneElse, AnswersOwnerQuery, Owners, AssignableBy, ManageableBy, Manages, OrganizationWithRole;
  }

  lemma UpdateIsGrantedExactly(d: Directory, who: Principal, q: Request, c: Calls)
    requires Served(d, q, c) && q.UpdateMember?
    ensures GrantedExactly(d, who, q, Membership(d.organizations[q.org], q.user), Update(d, who, q, c))
  {
    var key := Membership(d.organizations[q.org], q.user);
    OwnerCheckIsExact(d, q, c, key);
    if key in d.rows { PoliciesAreManages(d, who, q, c, d.rows[key]); }
    PoliciesAreManages(d, who, q, c, q.requested.value);
    hide SomeoneElse, AnswersOwnerQuery, Owners, AssignableBy, ManageableBy, Manages, OrganizationWithRole;
  }

  lemma DeleteIsGrantedExactly(d: Directory, who: Principal, q: Request, c: Calls)
    requires Served(d, q, c) && q.DeleteMember?
    ensures GrantedExactly(d, who, q, Membership(d.organizations[q.org], q.user), Delete(d, who, q, c))
  {
    var key := Membership(d.organizations[q.org], q.user);
    OwnerCheckIsExact(d, q, c, key);
    if key in d.rows { PoliciesAreManages(d, who, q, c, d.rows[key]); }
    hide SomeoneElse, AnswersOwnerQuery, Owners, AssignableBy, ManageableBy, Manages, OrganizationWithRole;
  }

  /** A served request is granted exactly when it may be made; the target then holds exactly the
      requested role, or no row after a delete, and nothing else changes. */
  lemma RequestIsGrantedExactly(d: Directory, who: Principal, q: Request, c: Calls)
    requires Served(d, q, c)
    ensures GrantedExactly(d, who, q, Target(d, q, c), Handle(d, who, q, c))
  {
    match q
    case CreateMember(_, _, _) => CreateIsGrantedExactly(d, who, q, c);
    case UpdateMember(_, _, _) => UpdateIsGrantedExactly(d, who, q, c);
    case DeleteMember(_, _) => DeleteIsGrantedExactly(d, who, q, c);
  }

  datatype Step = Step(who: Principal, request: Request, calls: Calls)

  function Next(d: Directory, s: Step): Directory {
    d.(rows := Handle(d, s.who, s.request, s.calls).rows)
  }

  function Exec(d: Directory, history: seq<Step>): Directory
    decreases |history|
  {
    if history == [] then d else Exec(Next(d, history[0]), history[1..])
  }

  /** Every owner query is answered genuinely and every create reads the membership it changes. */
  predicate Sound(d: Directory, history: seq<Step>)
    decreases |history|
  {
    history != [] ==>
      && Genuine(d, history[0].request, history[0].calls)
      && (history[0].request.CreateMember? ==> history[0].calls.memberRead)
      && Sound(Next(d, history[0]), history[1..])
  }

  /** Over any run whose membership reads are answered, a merchant with an owner keeps one. */
  lemma {:induction false} AnOwnerRemains(d: Directory, history: seq<Step>, merchant: string)
    requires Sound(d, history) && HasOwner(d.rows, merchant)
    ensures HasOwner(Exec(d, history).rows, merchant)
    decreases |history|
  {
    if history != [] {
      var s := history[0];
      OwnerIsLostExactlyByABlindDemotion(d, s.who, s.request, s.calls, merchant);
      AnOwnerRemains(Next(d, s), history[1..], merchant);
    }
  }

  // --- admins ---------------------------------------------------------------------------

  /** The rows an admin may not touch. */
  function Privileged(rows: Rows): Rows {
    map k <- rows | rows[k] in {Owner, Admin} :: rows[k]
  }

  predicate ActsAsAdmin(d: Directory, s: Step) {
    OrganizationWithRole(d, s.who, s.request.org, s.calls) == Some(Holding(Admin))
  }

  /** A step by an admin changes the owner and admin rows exactly when it is a create that could
      not read the membership of an owner or admin. */
  lemma AdminReachesPrivilegedRowsOnlyBlindly(d: Directory, s: Step)
    requires ActsAsAdmin(d, s)
    ensures Privileged(Next(d, s).rows) != Privileged(d.rows) <==>
              && BlindWrite(d, s.who, s.request, s.calls)
              && Target(d, s.request, s.calls) in Privileged(d.rows)
  {
    var q, c := s.request, s.calls;
    var after := Next(d, s).rows;
    if q.org in d.organizations && (q.CreateMember? ==> c.lookup.Some?) {
      var key := Target(d, q, c);
      forall k | k != key ensures k in Privileged(after) <==> k in Privileged(d.rows) {}
      if key !in Privileged(d.rows) {
        assert key !in Privileged(after);
        assert Privileged(after) == Privileged(d.rows);
      }
    }
  }

  predicate AllByAdmins(d: Directory, history: seq<Step>)
    decreases |history|
  {
    history != [] ==> ActsAsAdmin(d, history[0]) && AllByAdmins(Next(d, history[0]), history[1..])
  }

  /** No run of admins changes who is an owner or an admin, in any merchant. */
  lemma {:induction false} AdminsNeverChangePrivilegedRows(d: Directory, history: seq<Step>)
    requires Sound(d, history) && AllByAdmins(d, history)
    ensures Privileged(Exec(d, history).rows) == Privileged(d.rows)
    decreases |history|
  {
    if history != [] {
      AdminReachesPrivilegedRowsOnlyBlindly(d, history[0]);
      AdminsNeverChangePrivilegedRows(Next(d, history[0]), history[1..]);
    }
  }

  /** One unanswered read is enough for an admin to demote the only owner of a merchant. */
  lemma OneLostReadOrphansAMerchant()
    ensures var owner, admin := Membership("m", "ana"), Membership("m", "rui");
            var d := Directory(map["org" := "m"], map[owner := Owner, admin := Admin]);
            var calls := Calls(true, true, Some("ana"), true, false, None, Stored);
            var s := Step(Principal("rui", false), CreateMember("org", "ana@example.com", Some(Viewer)), calls);
            HasOwner(d.rows, "m") && Genuine(d, s.request, s.calls) && ActsAsAdmin(d, s)
                && !HasOwner(Next(d, s).rows, "m")
  {
    var owner, admin := Membership("m", "ana"), Membership("m", "rui");
    assert owner != admin by { assert "ana"[0] != "rui"[0]; }
    var d := Directory(map["org" := "m"], map[owner := Owner, admin := Admin]);
    OwnersAreOwners(d.rows, "m", "ana");
    OwnersAfterStore(d.rows, owner, Viewer, "m");
    forall u ensures u in Owners(d.rows, "m") ==> u == "ana" { OwnersAreOwners(d.rows, "m", u); }
  }
}
