/** Which workflow owns which radio: leases, reservations, stop marks and control permits over endpoints that may
    share a physical device. The caller serializes the operations. */
module DeviceOwnership {
  import opened Samples

  datatype Owner = Automatic | Listen | P25 | Satcom | Inmarsat | Aircraft | Sstv

  /** Endpoints with the same non-empty domain are tuners of one physical device. */
  datatype Endpoint = Endpoint(key: string, domain: string)

  /** A grant of an endpoint; id 0 is no grant. */
  datatype Token = Token(index: nat, generation: nat, id: nat, owner: Owner, client: string)

  datatype State = State(
    endpoints: seq<Endpoint>, assignments: map<string, Owner>, leases: map<nat, Token>, stopping: set<nat>,
    controls: map<nat, nat>, nextControlId: nat, generation: nat, nextId: nat)
  {
    predicate SameDomain(a: nat, b: nat)
      requires a < |endpoints| && b < |endpoints|
    {
      endpoints[a].domain != "" && endpoints[a].domain == endpoints[b].domain
    }

    /** The same endpoint, or another tuner of the same device. */
    predicate Shares(a: nat, b: nat) {
      a == b || (a < |endpoints| && b < |endpoints| && SameDomain(a, b))
    }

    /** The endpoint has a key, and no other endpoint has it. */
    ghost predicate Unique(index: nat) {
      && index < |endpoints| && endpoints[index].key != ""
      && forall i :: 0 <= i < |endpoints| && endpoints[i].key == endpoints[index].key ==> i == index
    }

    function Assignment(index: nat): Owner {
      if index < |endpoints| && endpoints[index].key in assignments then assignments[endpoints[index].key]
      else Automatic
    }

    ghost predicate ControlBusy(index: nat) {
      index < |endpoints| && exists other :: other in controls && Shares(index, other)
    }

    ghost predicate StopBusy(index: nat) {
      exists other :: other in stopping && Shares(index, other)
    }

    /** May this client of this workflow use the endpoint now? */
    ghost predicate Allowed(index: nat, owner: Owner, client: string) {
      && index < |endpoints| && owner != Automatic
      && !StopBusy(index) && Unique(index) && !ControlBusy(index)
      && Assignment(index) in {Automatic, owner}
      && (forall other :: other in leases && Shares(index, other) ==>
            other == index && leases[other].owner == owner && leases[other].client == client)
      && (forall i :: 0 <= i < |endpoints| && i != index && Shares(index, i) ==> Assignment(i) in {Automatic, owner})
    }

    predicate Valid(token: Token) {
      token.id != 0 && token.generation == generation && token.index in leases && leases[token.index] == token
    }

    /** Workflow control of an endpoint: by the holder of its lease, or by the host when no other lease is touched. */
    ghost predicate MayControl(index: nat, token: Option<Token>) {
      && Unique(index) && !ControlBusy(index) && !StopBusy(index)
      && match token
         case Some(t) => t.index == index && Valid(t) && Allowed(index, t.owner, t.client)
         case None => forall other :: other in leases && Shares(index, other) ==>
           other == index && leases[other].owner == Listen && leases[other].client == "legacy-listen"
    }

    /** A key in the table names this endpoint alone; a lease keeps its reservation; and a reserved endpoint does not
        disagree with an earlier one of its device. */
    ghost predicate EndpointFits(values: map<string, Owner>, i: nat)
      requires i < |endpoints|
    {
      && (endpoints[i].key in values ==> Unique(i))
      && (i in leases ==> Assignment(i) == Next(values, i))
      && forall j: nat :: j < i && SameDomain(i, j) ==>
           Next(values, i) == Automatic || endpoints[j].key !in values || values[endpoints[j].key] == Next(values, i)
    }

    /** May this reservation table replace the present one? */
    ghost predicate AssignmentsFit(values: map<string, Owner>) {
      && controls == map[] && stopping == {} && |values| <= 128
      && (forall key :: key in values ==> 0 < |key| <= 512 && values[key] != Automatic)
      && (forall i: nat :: i < |endpoints| ==> EndpointFits(values, i))
    }

    function Next(values: map<string, Owner>, index: nat): Owner
      requires index < |endpoints|
    {
      if endpoints[index].key in values then values[endpoints[index].key] else Automatic
    }
  }

  const UNBOUND := State([], map[], map[], {}, map[], 0, 0, 0)

  datatype Operation =
    | Bind(endpoints: seq<Endpoint>)
    | Append(endpoint: Endpoint)
    | SetAssignments(values: map<string, Owner>)
    | Claim(index: nat, owner: Owner, client: string)
    | Release(token: Token)
    | Invalidate(index: nat)
    | BeginStop(index: nat)
    | EndStop(index: nat)
    | BeginControl(index: nat, holder: Option<Token>)
    | EndControl(index: nat, id: nat)

  /** The state after an operation; a refused operation changes nothing. */
  ghost function After(s: State, op: Operation): State {
    match op
    case Bind(endpoints) =>
      if s.stopping != {} || s.controls != map[] then s
      else s.(endpoints := endpoints, leases := map[], generation := s.generation + 1)
    case Append(endpoint) => s.(endpoints := s.endpoints + [endpoint])
    case SetAssignments(values) => if s.AssignmentsFit(values) then s.(assignments := values) else s
    case Claim(index, owner, client) =>
      if client == "" || !s.Allowed(index, owner, client) || index in s.leases then s
      else
        var token := Token(index, s.generation, s.nextId + 1, owner, client);
        s.(nextId := s.nextId + 1, leases := s.leases[index := token])
    case Release(token) => if s.Valid(token) then s.(leases := s.leases - {token.index}) else s
    case Invalidate(index) => s.(leases := s.leases - {index})
    case BeginStop(index) => if index < |s.endpoints| then s.(stopping := s.stopping + {index}) else s
    case EndStop(index) => s.(stopping := s.stopping - {index})
    case BeginControl(index, holder) =>
      if s.MayControl(index, holder) then
        s.(nextControlId := s.nextControlId + 1, controls := s.controls[index := s.nextControlId + 1])
      else s
    case EndControl(index, id) =>
      if index in s.controls && s.controls[index] == id then s.(controls := s.controls - {index}) else s
  }

  // ---- Invariants ---------------------------------------------------------------------------

  /** Every index in use names an endpoint. */
  ghost predicate InRange(s: State) {
    && (forall i :: i in s.leases ==> i < |s.endpoints|)
    && (forall i :: i in s.controls ==> i < |s.endpoints|)
    && (forall i :: i in s.stopping ==> i < |s.endpoints|)
  }

  /** Every lease is a token of its own endpoint and of this binding, issued once. */
  ghost predicate LeasesIssued(s: State) {
    && (forall i :: i in s.leases ==>
         var t := s.leases[i];
         t.index == i && t.generation == s.generation && 0 < t.id <= s.nextId && t.owner != Automatic)
    && (forall i, j :: i in s.leases && j in s.leases && s.leases[i].id == s.leases[j].id ==> i == j)
  }

  /** Control permits carry ids of their own, issued once. */
  ghost predicate PermitsIssued(s: State) {
    && (forall i :: i in s.controls ==> 0 < s.controls[i] <= s.nextControlId)
    && (forall i, j :: i in s.controls && j in s.controls && s.controls[i] == s.controls[j] ==> i == j)
  }

  /** At most one lease for each physical device. */
  ghost predicate OneLeasePerDevice(s: State) {
    forall i, j :: i in s.leases && j in s.leases && s.Shares(i, j) ==> i == j
  }

  /** At most one control permit for each physical device. */
  ghost predicate OnePermitPerDevice(s: State) {
    forall i, j :: i in s.controls && j in s.controls && s.Shares(i, j) ==> i == j
  }

  /** A leased endpoint is reserved for the workflow of its lease, or for none. */
  ghost predicate ReservationsKept(s: State) {
    forall i :: i in s.leases ==> s.Assignment(i) in {Automatic, s.leases[i].owner}
  }

  ghost predicate Inv(s: State) {
    && InRange(s) && LeasesIssued(s) && PermitsIssued(s)
    && OneLeasePerDevice(s) && OnePermitPerDevice(s) && ReservationsKept(s)
  }

  lemma KeepsRange(s: State, op: Operation)
    requires Inv(s)
    ensures InRange(After(s, op))
  {}

  /** No operation but a claim grants a lease: the others keep the leases they keep as they are, or drop them all in a
      new binding. */
  lemma OnlyClaimsGrant(s: State, op: Operation)
    requires !op.Claim?
    ensures var s' := After(s, op);
      || s'.leases == map[]
      || (s'.generation == s.generation && s'.nextId == s.nextId
          && forall i :: i in s'.leases ==> i in s.leases && s'.leases[i] == s.leases[i])
  {}

  /** Only these two change the reservations or the endpoints that leases may be on. */
  lemma OnlyTheseReserve(s: State, op: Operation)
    requires !op.SetAssignments? && !op.Append?
    ensures var s' := After(s, op);
      s'.leases == map[] || (s'.endpoints == s.endpoints && s'.assignments == s.assignments)
  {}

  lemma ClaimKeepsLeaseIds(s: State, index: nat, owner: Owner, client: string)
    requires Inv(s)
    ensures LeasesIssued(After(s, Claim(index, owner, client)))
  {}

  lemma KeepsLeaseIds(s: State, op: Operation)
    requires Inv(s)
    ensures LeasesIssued(After(s, op))
  {
    if op.Claim? {
      ClaimKeepsLeaseIds(s, op.index, op.owner, op.client);
    } else {
      OnlyClaimsGrant(s, op);
    }
  }

  lemma KeepsPermitIds(s: State, op: Operation)
    requires Inv(s)
    ensures PermitsIssued(After(s, op))
  {}

  /** The same endpoints, perhaps with one more. */
  ghost predicate Continues(s: State, s': State) {
    s.endpoints <= s'.endpoints
  }

  lemma SharesAsBefore(s: State, s': State, i: nat, j: nat)
    requires Continues(s, s') && i < |s.endpoints| && j < |s.endpoints|
    ensures s'.Shares(i, j) == s.Shares(i, j)
  {}

  /** Where no lease is new, no two come to share a device. */
  lemma NoNewLease(s: State, s': State)
    requires Inv(s) && Continues(s, s') && s'.leases.Keys <= s.leases.Keys
    ensures OneLeasePerDevice(s')
  {
    forall i, j | i in s'.leases && j in s'.leases && s'.Shares(i, j)
      ensures i == j
    {
      SharesAsBefore(s, s', i, j);
    }
  }

  lemma ClaimKeepsOneLease(s: State, index: nat, owner: Owner, client: string)
    requires Inv(s)
    ensures OneLeasePerDevice(After(s, Claim(index, owner, client)))
  {
    var s' := After(s, Claim(index, owner, client));
    forall i, j | i in s'.leases && j in s'.leases && s'.Shares(i, j)
      ensures i == j
    {
      assert s.Shares(i, j) && s.Shares(j, i);
    }
  }

  lemma KeepsOneLease(s: State, op: Operation)
    requires Inv(s)
    ensures OneLeasePerDevice(After(s, op))
  {
    match op
    case Bind(_) =>
    case Claim(index, owner, client) => ClaimKeepsOneLease(s, index, owner, client);
    case _ => NoNewLease(s, After(s, op));
  }

  /** Where no permit is new, no two come to share a device. */
  lemma NoNewPermit(s: State, s': State)
    requires Inv(s) && Continues(s, s') && s'.controls.Keys <= s.controls.Keys
    ensures OnePermitPerDevice(s')
  {
    forall i, j | i in s'.controls && j in s'.controls && s'.Shares(i, j)
      ensures i == j
    {
      SharesAsBefore(s, s', i, j);
    }
  }

  lemma ControlKeepsOnePermit(s: State, index: nat, holder: Option<Token>)
    requires Inv(s)
    ensures OnePermitPerDevice(After(s, BeginControl(index, holder)))
  {
    var s' := After(s, BeginControl(index, holder));
    forall i, j | i in s'.controls && j in s'.controls && s'.Shares(i, j)
      ensures i == j
    {
      assert s.Shares(i, j) && s.Shares(j, i);
    }
  }

  lemma KeepsOnePermit(s: State, op: Operation)
    requires Inv(s)
    ensures OnePermitPerDevice(After(s, op))
  {
    match op
    case Bind(_) =>
    case BeginControl(index, holder) => ControlKeepsOnePermit(s, index, holder);
    case _ => NoNewPermit(s, After(s, op));
  }

  lemma NewTableKeepsReservations(s: State, values: map<string, Owner>)
    requires Inv(s) && s.AssignmentsFit(values)
    ensures ReservationsKept(s.(assignments := values))
  {
    var s' := s.(assignments := values);
    forall i | i in s.leases
      ensures s'.Assignment(i) == s.Assignment(i)
    {
      assert s.EndpointFits(values, i);
    }
  }

  lemma ClaimKeepsReservations(s: State, index: nat, owner: Owner, client: string)
    requires Inv(s)
    ensures ReservationsKept(After(s, Claim(index, owner, client)))
  {
    var s' := After(s, Claim(index, owner, client));
    assert forall i: nat :: s'.Assignment(i) == s.Assignment(i);
  }

  lemma KeepsReservations(s: State, op: Operation)
    requires Inv(s)
    ensures ReservationsKept(After(s, op))
  {
    match op
    case SetAssignments(values) =>
      if s.AssignmentsFit(values) {
        NewTableKeepsReservations(s, values);
      }
    case Append(endpoint) =>
      assert forall i :: i in s.leases ==> After(s, op).Assignment(i) == s.Assignment(i);
    case Claim(index, owner, client) => ClaimKeepsReservations(s, index, owner, client);
    case _ =>
      OnlyClaimsGrant(s, op);
      OnlyTheseReserve(s, op);
  }

  // ---- Runs ---------------------------------------------------------------------------------

  ghost function Run(s: State, ops: seq<Operation>): State
    decreases |ops|
  {
    if ops == [] then s else Run(After(s, ops[0]), ops[1..])
  }

  lemma KeepsInv(s: State, op: Operation)
    requires Inv(s)
    ensures Inv(After(s, op))
  {
    KeepsRange(s, op);
    KeepsLeaseIds(s, op);
    KeepsPermitIds(s, op);
    KeepsOneLease(s, op);
    KeepsOnePermit(s, op);
    KeepsReservations(s, op);
  }

  lemma {:induction false} RunKeepsInv(s: State, ops: seq<Operation>)
    requires Inv(s)
    ensures Inv(Run(s, ops))
    decreases |ops|
  {
    if ops != [] {
      KeepsInv(s, ops[0]);
      RunKeepsInv(After(s, ops[0]), ops[1..]);
    }
  }

  /** However the operations are ordered, two valid tokens never name one physical device, unless they are the same
      token; and the endpoint of a valid token is not reserved for another workflow. */
  lemma ExclusiveOwnership(ops: seq<Operation>, t: Token, u: Token)
    requires var s := Run(UNBOUND, ops); s.Valid(t) && s.Valid(u)
    ensures var s := Run(UNBOUND, ops);
      && (s.Shares(t.index, u.index) ==> t == u)
      && (t.id == u.id ==> t == u)
      && s.Assignment(t.index) in {Automatic, t.owner}
  {
    RunKeepsInv(UNBOUND, ops);
  }

  // ---- Control permits ----------------------------------------------------------------------

  /** The device of endpoint d is pinned: its permit is outstanding, and nothing on it has been granted since from. */
  ghost predicate Pinned(from: State, s: State, d: nat) {
    && d in from.controls && d in s.controls && s.controls[d] == from.controls[d]
    && from.endpoints <= s.endpoints && s.assignments == from.assignments
    && (forall i :: i in s.leases && s.Shares(d, i) ==> i in from.leases && s.leases[i] == from.leases[i])
    && (forall i :: i in s.controls && s.Shares(d, i) ==> i == d)
  }

  lemma OperationKeepsPin(from: State, s: State, op: Operation, d: nat)
    requires Inv(s) && Pinned(from, s, d)
    requires op.EndControl? ==> op.index != d || op.id != from.controls[d]
    ensures Pinned(from, After(s, op), d)
  {
    match op
    case Append(_) => AppendKeepsPin(from, s, After(s, op), d);
    case Claim(index, owner, client) => ClaimKeepsPin(from, s, op, d);
    case BeginControl(index, holder) => ControlKeepsPin(from, s, op, d);
    case _ =>
      OthersNarrow(s, op, d);
      NarrowingKeepsPin(from, s, After(s, op), d);
  }

  /** Leases and permits may have gone, and nothing else that matters for a pin has changed. */
  ghost predicate Narrows(s: State, s': State) {
    && s'.endpoints == s.endpoints && s'.assignments == s.assignments
    && (forall i :: i in s'.leases ==> i in s.leases && s'.leases[i] == s.leases[i])
    && (forall i :: i in s'.controls ==> i in s.controls && s'.controls[i] == s.controls[i])
  }

  lemma OthersNarrow(s: State, op: Operation, d: nat)
    requires d in s.controls && !op.Append? && !op.Claim? && !op.BeginControl?
    requires op.EndControl? ==> op.index != d || op.id != s.controls[d]
    ensures Narrows(s, After(s, op)) && d in After(s, op).controls
  {}

  lemma NarrowingKeepsPin(from: State, s: State, s': State, d: nat)
    requires Pinned(from, s, d) && Narrows(s, s') && d in s'.controls
    ensures Pinned(from, s', d)
  {
    assert forall i: nat :: s'.Shares(d, i) == s.Shares(d, i);
  }

  lemma AppendKeepsPin(from: State, s: State, s': State, d: nat)
    requires Inv(s) && Pinned(from, s, d) && Continues(s, s') && s' == s.(endpoints := s'.endpoints)
    ensures Pinned(from, s', d)
  {
    forall i | i in s.leases || i in s.controls
      ensures s'.Shares(d, i) == s.Shares(d, i)
    {
      SharesAsBefore(s, s', d, i);
    }
  }

  lemma ClaimKeepsPin(from: State, s: State, op: Operation, d: nat)
    requires Inv(s) && Pinned(from, s, d) && op.Claim?
    ensures Pinned(from, After(s, op), d)
  {
    if s.Shares(d, op.index) {
      PinnedIsBusy(s, op.index, d);
    }
  }

  lemma ControlKeepsPin(from: State, s: State, op: Operation, d: nat)
    requires Inv(s) && Pinned(from, s, d) && op.BeginControl?
    ensures Pinned(from, After(s, op), d)
  {
    if s.Shares(d, op.index) {
      PinnedIsBusy(s, op.index, d);
    }
  }

  lemma PinnedIsBusy(s: State, i: nat, d: nat)
    requires InRange(s) && d in s.controls && s.Shares(d, i)
    ensures s.ControlBusy(i)
  {
    assert s.Shares(i, d);
  }

  /** While a control permit is outstanding, through any operations other than its own end: no lease, no other permit,
      no rebinding and no change of reservations on its device succeeds, whatever happens to the lease it came from. */
  lemma {:induction false} PermitPinsDevice(s: State, ops: seq<Operation>, d: nat)
    requires Inv(s) && d in s.controls
    requires forall op :: op in ops && op.EndControl? ==> op.index != d || op.id != s.controls[d]
    ensures Pinned(s, Run(s, ops), d)
    decreases |ops|
  {
    RunKeepsPin(s, s, ops, d);
  }

  lemma {:induction false} RunKeepsPin(from: State, s: State, ops: seq<Operation>, d: nat)
    requires Inv(s) && Pinned(from, s, d)
    requires forall op :: op in ops && op.EndControl? ==> op.index != d || op.id != from.controls[d]
    ensures Pinned(from, Run(s, ops), d)
    decreases |ops|
  {
    if ops != [] {
      OperationKeepsPin(from, s, ops[0], d);
      KeepsInv(s, ops[0]);
      RunKeepsPin(from, After(s, ops[0]), ops[1..], d);
    }
  }

  /** While a device is stopping, nothing on it is granted either. */
  lemma StopMarkRefusesGrants(s: State, d: nat, i: nat, owner: Owner, client: string, holder: Option<Token>)
    requires Inv(s) && d in s.stopping && s.Shares(i, d)
    ensures After(s, Claim(i, owner, client)) == s && After(s, BeginControl(i, holder)) == s
    ensures forall endpoints :: After(s, Bind(endpoints)) == s
    ensures forall values :: After(s, SetAssignments(values)) == s
  {
    assert s.StopBusy(i);
  }

  // ---- Tokens -------------------------------------------------------------------------------

  /** The token, if it was ever issued, has been retired. */
  predicate Dead(s: State, t: Token) {
    t.id <= s.nextId && !s.Valid(t)
  }

  lemma DeadStaysDead(s: State, op: Operation, t: Token)
    requires Inv(s) && Dead(s, t)
    ensures Dead(After(s, op), t)
  {}

  lemma {:induction false} NeverValidAgain(s: State, ops: seq<Operation>, t: Token)
    requires Inv(s) && Dead(s, t)
    ensures Dead(Run(s, ops), t)
    decreases |ops|
  {
    if ops != [] {
      DeadStaysDead(s, ops[0], t);
      KeepsInv(s, ops[0]);
      NeverValidAgain(After(s, ops[0]), ops[1..], t);
    }
  }

  /** A valid token is retired exactly by its release, by the invalidation of its endpoint or by a rebinding. */
  lemma RetiredExactlyBy(s: State, op: Operation, t: Token)
    requires Inv(s) && s.Valid(t)
    ensures Dead(After(s, op), t) || After(s, op).Valid(t)
    ensures Dead(After(s, op), t) <==>
      || op == Release(t) || op == Invalidate(t.index)
      || (op.Bind? && s.stopping == {} && s.controls == map[])
  {}

  /** A token granted anew has never been seen: its id is above all earlier ones. */
  lemma GrantIsFresh(s: State, index: nat, owner: Owner, client: string)
    requires Inv(s) && client != "" && s.Allowed(index, owner, client)
    ensures var s' := After(s, Claim(index, owner, client));
      && s'.Valid(s'.leases[index]) && s'.leases[index].owner == owner && s'.leases[index].client == client
      && (if index in s.leases then s' == s else s'.leases[index].id == s'.nextId > s.nextId)
  {}

  // ---- Who is granted what ------------------------------------------------------------------

  /** The endpoint has a key of its own. */
  ghost predicate Identified(s: State, i: nat) {
    && i < |s.endpoints| && s.endpoints[i].key != ""
    && forall j :: 0 <= j < |s.endpoints| && j != i ==> s.endpoints[j].key != s.endpoints[i].key
  }

  /** No tuner of the device is stopping or under control. */
  ghost predicate Quiet(s: State, i: nat) {
    forall j: nat :: s.Shares(i, j) ==> j !in s.stopping && j !in s.controls
  }

  /** No tuner of the device is reserved for another workflow. */
  ghost predicate Unreserved(s: State, i: nat, owner: Owner) {
    forall j: nat :: s.Shares(i, j) ==> s.Assignment(j) == Automatic || s.Assignment(j) == owner
  }

  /** The only lease on the device, if any, is this session's on this endpoint. */
  ghost predicate Held(s: State, i: nat, owner: Owner, client: string) {
    forall j: nat :: j in s.leases && s.Shares(i, j) ==>
      j == i && s.leases[j].owner == owner && s.leases[j].client == client
  }

  lemma AllowedIff(s: State, i: nat, owner: Owner, client: string)
    requires Inv(s)
    ensures s.Allowed(i, owner, client) <==>
      owner != Automatic && Identified(s, i) && Quiet(s, i) && Unreserved(s, i, owner) && Held(s, i, owner, client)
  {
    UniqueIff(s, i);
    if Identified(s, i) {
      QuietIff(s, i);
      UnreservedIff(s, i, owner);
    }
  }

  lemma UniqueIff(s: State, i: nat)
    ensures s.Unique(i) <==> Identified(s, i)
  {}

  lemma QuietIff(s: State, i: nat)
    requires i < |s.endpoints|
    ensures Quiet(s, i) <==> !s.StopBusy(i) && !s.ControlBusy(i)
  {}

  lemma UnreservedIff(s: State, i: nat, owner: Owner)
    requires i < |s.endpoints|
    ensures Unreserved(s, i, owner) <==>
      && s.Assignment(i) in {Automatic, owner}
      && forall j :: 0 <= j < |s.endpoints| && j != i && s.Shares(i, j) ==> s.Assignment(j) in {Automatic, owner}
  {
    assert s.Shares(i, i);
  }

  /** A client gets an endpoint that is not leased exactly when the endpoint has a key of its own, and its whole
      device is idle, free of leases and not reserved for another workflow. */
  lemma ClaimGrantedIff(s: State, i: nat, owner: Owner, client: string)
    requires Inv(s) && i !in s.leases
    ensures i in After(s, Claim(i, owner, client)).leases <==>
      && client != "" && owner != Automatic && Identified(s, i) && Quiet(s, i) && Unreserved(s, i, owner)
      && forall j :: j in s.leases ==> !s.Shares(i, j)
  {
    AllowedIff(s, i, owner, client);
  }

  /** A control permit is given exactly when the endpoint has a key of its own, its device is idle, and who asks is the
      holder of the endpoint's lease, with the device not reserved for another workflow, or the host, with no lease on
      the device but the host's own on this endpoint. */
  lemma ControlGrantedIff(s: State, i: nat, holder: Option<Token>)
    requires Inv(s)
    ensures After(s, BeginControl(i, holder)) != s <==>
      && Identified(s, i) && Quiet(s, i)
      && match holder
         case Some(t) => s.Valid(t) && t.index == i && Unreserved(s, i, t.owner)
         case None => Held(s, i, Listen, "legacy-listen")
  {
    UniqueIff(s, i);
    if Identified(s, i) {
      QuietIff(s, i);
      if holder.Some? && s.Valid(holder.value) && holder.value.index == i {
        AllowedIff(s, i, holder.value.owner, holder.value.client);
        assert Held(s, i, holder.value.owner, holder.value.client);
      }
    }
  }

  /** However the operations are ordered, nobody gets control over a device that another session has leased: not the
      host, and not the holder of another lease or of a retired one. */
  lemma ControlNeverOverrides(ops: seq<Operation>, i: nat, holder: Option<Token>, j: nat)
    requires var s := Run(UNBOUND, ops);
      After(s, BeginControl(i, holder)) != s && j in s.leases && s.Shares(i, j)
    ensures var s := Run(UNBOUND, ops);
      && j == i
      && match holder
         case Some(t) => s.leases[j] == t
         case None => s.leases[j].owner == Listen && s.leases[j].client == "legacy-listen"
  {
    RunKeepsInv(UNBOUND, ops);
    var s := Run(UNBOUND, ops);
    ControlGrantedIff(s, i, holder);
    if holder.Some? {
      assert i in s.leases && s.Shares(i, j);
    }
  }

  /** A permit is new, and its end makes the endpoint free for the next one; no other id ends it. */
  lemma PermitLasts(s: State, i: nat, holder: Option<Token>, id: nat)
    requires Inv(s) && After(s, BeginControl(i, holder)) != s
    ensures var s' := After(s, BeginControl(i, holder));
      && i !in s.controls && s'.controls == s.controls[i := s'.nextControlId] && s'.nextControlId > s.nextControlId
      && (id == s'.controls[i] ==> After(s', EndControl(i, id)).controls == s.controls)
      && (id != s'.controls[i] ==> After(s', EndControl(i, id)) == s')
  {
    ControlGrantedIff(s, i, holder);
    assert s.Shares(i, i);
  }

  /** The entries of a table. */
  ghost predicate WellFormed(values: map<string, Owner>) {
    |values| <= 128 && forall key :: key in values ==> 0 < |key| <= 512 && values[key] != Automatic
  }

  /** Each key of the table names one endpoint at most. */
  ghost predicate KeysClear(s: State, values: map<string, Owner>) {
    forall i: nat :: i < |s.endpoints| && s.endpoints[i].key in values ==> Identified(s, i)
  }

  /** No leased endpoint loses, gains or changes a reservation. */
  ghost predicate LeasesUntouched(s: State, values: map<string, Owner>) {
    forall i: nat :: i < |s.endpoints| && i in s.leases ==> s.Next(values, i) == s.Assignment(i)
  }

  /** No two tuners of a device are reserved for different workflows. */
  ghost predicate DevicesAgree(s: State, values: map<string, Owner>) {
    forall i: nat, j: nat :: i < |s.endpoints| && j < |s.endpoints| && s.SameDomain(i, j) ==>
      s.Next(values, i) == Automatic || s.Next(values, j) == Automatic || s.Next(values, i) == s.Next(values, j)
  }

  lemma EndpointFitsIff(s: State, values: map<string, Owner>, i: nat)
    requires i < |s.endpoints| && WellFormed(values)
    ensures s.EndpointFits(values, i) <==>
      && (s.endpoints[i].key in values ==> Identified(s, i))
      && (i in s.leases ==> s.Next(values, i) == s.Assignment(i))
      && forall j: nat :: j < i && s.SameDomain(i, j) ==>
        s.Next(values, i) == Automatic || s.Next(values, j) == Automatic || s.Next(values, i) == s.Next(values, j)
  {
    UniqueIff(s, i);
  }

  lemma AllFitIff(s: State, values: map<string, Owner>)
    requires WellFormed(values)
    ensures (forall i: nat :: i < |s.endpoints| ==> s.EndpointFits(values, i)) <==>
      KeysClear(s, values) && LeasesUntouched(s, values) && DevicesAgree(s, values)
  {
    hide State.EndpointFits, Identified, State.Next, State.Assignment;
    forall i: nat | i < |s.endpoints| {
      EndpointFitsIff(s, values, i);
    }
    if forall i: nat :: i < |s.endpoints| ==> s.EndpointFits(values, i) {
      forall i: nat, j: nat | i < |s.endpoints| && j < |s.endpoints| && s.SameDomain(i, j)
        ensures s.Next(values, i) == Automatic || s.Next(values, j) == Automatic
          || s.Next(values, i) == s.Next(values, j)
      {
        assert s.EndpointFits(values, i) && s.EndpointFits(values, j) && s.SameDomain(j, i);
      }
    }
  }

  /** A reservation table is taken exactly when nothing is stopping or under control, its entries are in order, its keys
      are clear, leases stay untouched, and devices agree. */
  lemma AssignmentsTakenIff(s: State, values: map<string, Owner>)
    ensures var fits := s.controls == map[] && s.stopping == {} && WellFormed(values) && KeysClear(s, values)
              && LeasesUntouched(s, values) && DevicesAgree(s, values);
      && (s.AssignmentsFit(values) <==> fits)
      && After(s, SetAssignments(values)) == if fits then s.(assignments := values) else s
  {
    if WellFormed(values) {
      AllFitIff(s, values);
    }
    hide State.EndpointFits, KeysClear, LeasesUntouched, DevicesAgree;
  }

  /** Each part of the state changes by its own operations only. */
  lemma OthersLeaveAlone(s: State, op: Operation)
    ensures var s' := After(s, op);
      && (op.SetAssignments? || s'.assignments == s.assignments)
      && (op.Bind? || op.Append? || s'.endpoints == s.endpoints)
      && (op.BeginStop? || op.EndStop? || s'.stopping == s.stopping)
      && (op.BeginControl? || op.EndControl? || s'.controls == s.controls)
      && (op.Bind? || op.Claim? || op.Release? || op.Invalidate? || s'.leases == s.leases)
  {
    hide State.AssignmentsFit, State.Allowed, State.MayControl, State.Valid;
  }

  /** Binding, appending and stop marks do what they say. */
  lemma DevicesAndMarks(s: State, endpoints: seq<Endpoint>, endpoint: Endpoint, i: nat)
    ensures var s' := After(s, Bind(endpoints));
      if s.stopping == {} && s.controls == map[] then
        s'.endpoints == endpoints && s'.leases == map[] && s'.generation > s.generation
      else s' == s
    ensures After(s, Append(endpoint)).endpoints == s.endpoints + [endpoint]
    ensures After(s, BeginStop(i)).stopping == s.stopping + (if i < |s.endpoints| then {i} else {})
    ensures After(s, EndStop(i)).stopping == s.stopping - {i}
  {}

  // ---- Siblings -----------------------------------------------------------------------------

  /** No tuner of a leased device is reserved for another workflow. */
  ghost predicate SiblingsRespected(s: State) {
    forall i: nat, j: nat :: i in s.leases && j < |s.endpoints| && s.Shares(i, j) ==>
      s.Assignment(j) in {Automatic, s.leases[i].owner}
  }

  /** The new table reserves no sibling of an endpoint that is leased but not reserved in it. */
  ghost predicate UnreservedLeasesAvoided(s: State, values: map<string, Owner>)
    requires InRange(s)
  {
    forall i: nat, j: nat :: i in s.leases && s.Next(values, i) == Automatic && j < |s.endpoints| && s.Shares(i, j) ==>
      s.Next(values, j) in {Automatic, s.leases[i].owner}
  }

  /** The reservation of a new endpoint, if it has one, is for the workflow of every lease on its device. */
  ghost predicate NewcomerFits(s: State, endpoint: Endpoint)
    requires InRange(s)
  {
    endpoint.domain != "" && endpoint.key in s.assignments && s.assignments[endpoint.key] != Automatic ==>
      forall i :: i in s.leases && s.endpoints[i].domain == endpoint.domain ==>
        s.leases[i].owner == s.assignments[endpoint.key]
  }

  /** Where the table's own check compares, it protects the siblings of reserved leases. */
  lemma ReservedLeasesProtect(s: State, values: map<string, Owner>, i: nat, j: nat)
    requires Inv(s) && s.AssignmentsFit(values) && i in s.leases && s.Next(values, i) != Automatic
    requires j < |s.endpoints| && s.Shares(i, j)
    ensures s.Next(values, j) in {Automatic, s.leases[i].owner}
  {
    assert s.EndpointFits(values, i) && s.EndpointFits(values, j);
    assert s.Assignment(i) == s.leases[i].owner;
  }

  /** A grant respects sibling reservations, but a later change of reservations keeps that exactly when it avoids the
      siblings of unreserved leases: the table's own check compares reserved endpoints with one another only. */
  lemma SiblingsRespectedIff(s: State, values: map<string, Owner>)
    requires Inv(s) && s.AssignmentsFit(values)
    ensures SiblingsRespected(After(s, SetAssignments(values))) <==> UnreservedLeasesAvoided(s, values)
  {
    var s' := After(s, SetAssignments(values));
    assert forall i: nat, j: nat :: s'.Shares(i, j) == s.Shares(i, j);
    forall i: nat | i < |s.endpoints|
      ensures s'.Assignment(i) == s.Next(values, i)
    {}
    forall i: nat, j: nat | i in s.leases && s.Next(values, i) != Automatic && j < |s.endpoints| && s.Shares(i, j)
      ensures s.Next(values, j) in {Automatic, s.leases[i].owner}
    {
      ReservedLeasesProtect(s, values, i, j);
    }
  }

  /** A new endpoint keeps it exactly when its reservation fits: append checks nothing. */
  lemma AppendRespectsSiblingsIff(s: State, endpoint: Endpoint)
    requires Inv(s) && SiblingsRespected(s)
    ensures SiblingsRespected(After(s, Append(endpoint))) <==> NewcomerFits(s, endpoint)
  {
    var s', n := After(s, Append(endpoint)), |s.endpoints|;
    forall i | i in s.leases
      ensures s'.Shares(i, n) <==> endpoint.domain != "" && s.endpoints[i].domain == endpoint.domain
    {}
    forall i: nat, j: nat | i in s.leases && j < n
      ensures s'.Shares(i, j) == s.Shares(i, j) && s'.Assignment(j) == s.Assignment(j)
    {
      SharesAsBefore(s, s', i, j);
    }
    assert s'.Assignment(n) == if endpoint.key in s.assignments then s.assignments[endpoint.key] else Automatic;
    if !NewcomerFits(s, endpoint) {
      var i :| i in s.leases && s.endpoints[i].domain == endpoint.domain
        && s.leases[i].owner != s.assignments[endpoint.key];
      assert s'.Shares(i, n) && s'.Assignment(n) !in {Automatic, s'.leases[i].owner};
    }
  }

  /** A grant respects the reservations of siblings. */
  lemma ClaimKeepsSiblings(s: State, index: nat, owner: Owner, client: string)
    requires Inv(s) && SiblingsRespected(s)
    ensures SiblingsRespected(After(s, Claim(index, owner, client)))
  {
    var s' := After(s, Claim(index, owner, client));
    forall i: nat, j: nat | i in s'.leases && j < |s'.endpoints| && s'.Shares(i, j)
      ensures s'.Assignment(j) in {Automatic, s'.leases[i].owner}
    {
      assert s.Shares(i, j) && s'.Assignment(j) == s.Assignment(j);
    }
  }

  /** The operation does not reserve a tuner of a device that is leased to another workflow. */
  ghost predicate SiblingSafe(s: State, op: Operation)
    requires InRange(s)
  {
    match op
    case SetAssignments(values) => s.AssignmentsFit(values) ==> UnreservedLeasesAvoided(s, values)
    case Append(endpoint) => NewcomerFits(s, endpoint)
    case _ => true
  }

  /** Every operation but these two keeps the rule, and these two exactly when they are safe. */
  lemma StepRespectsSiblingsIff(s: State, op: Operation)
    requires Inv(s) && SiblingsRespected(s)
    ensures SiblingsRespected(After(s, op)) <==> SiblingSafe(s, op)
  {
    match op
    case SetAssignments(values) =>
      if s.AssignmentsFit(values) {
        SiblingsRespectedIff(s, values);
      }
    case Append(endpoint) => AppendRespectsSiblingsIff(s, endpoint);
    case Claim(index, owner, client) => ClaimKeepsSiblings(s, index, owner, client);
    case _ =>
      OnlyClaimsGrant(s, op);
      OnlyTheseReserve(s, op);
      FewerLeasesKeepSiblings(s, After(s, op));
  }

  lemma FewerLeasesKeepSiblings(s: State, s': State)
    requires SiblingsRespected(s)
    requires s'.leases == map[]
      || (s'.endpoints == s.endpoints && s'.assignments == s.assignments
          && forall i :: i in s'.leases ==> i in s.leases && s'.leases[i] == s.leases[i])
    ensures SiblingsRespected(s')
  {
    forall i: nat, j: nat | i in s'.leases && j < |s'.endpoints| && s'.Shares(i, j)
      ensures s'.Assignment(j) in {Automatic, s'.leases[i].owner}
    {
      assert s.Shares(i, j) && s.Assignment(j) == s'.Assignment(j);
    }
  }

  /** The rule holds now and after each of the operations. */
  ghost predicate RespectedThroughout(s: State, ops: seq<Operation>)
    decreases |ops|
  {
    SiblingsRespected(s) && (ops != [] ==> RespectedThroughout(After(s, ops[0]), ops[1..]))
  }

  /** Every operation is safe where it happens. */
  ghost predicate AllSiblingSafe(s: State, ops: seq<Operation>)
    requires Inv(s)
    decreases |ops|
  {
    ops != [] ==> SiblingSafe(s, ops[0]) && (KeepsInv(s, ops[0]); AllSiblingSafe(After(s, ops[0]), ops[1..]))
  }

  /** Over a whole run the rule holds throughout exactly when every change of reservations and every new endpoint is
      safe where it happens; nothing else can break it. */
  lemma {:induction false} RunRespectsSiblingsIff(s: State, ops: seq<Operation>)
    requires Inv(s) && SiblingsRespected(s)
    ensures RespectedThroughout(s, ops) <==> AllSiblingSafe(s, ops)
    decreases |ops|
  {
    if ops != [] {
      var s' := After(s, ops[0]);
      KeepsInv(s, ops[0]);
      StepRespectsSiblingsIff(s, ops[0]);
      if SiblingSafe(s, ops[0]) {
        RunRespectsSiblingsIff(s', ops[1..]);
      }
    }
  }

  /** Two tuners of one device. */
  const TWO_TUNERS := [Endpoint("a", "dev"), Endpoint("b", "dev")]

  /** The first tuner leased to Listen, with no reservations. */
  const FIRST_LEASED := State(TWO_TUNERS, map[], map[0 := Token(0, 1, 1, Listen, "ui")], {}, map[], 0, 1, 1)

  lemma FirstLeasedReachable()
    ensures Run(UNBOUND, [Bind(TWO_TUNERS), Claim(0, Listen, "ui")]) == FIRST_LEASED
  {
    var ops := [Bind(TWO_TUNERS), Claim(0, Listen, "ui")];
    var s1 := After(UNBOUND, ops[0]);
    assert s1.Allowed(0, Listen, "ui") by {
      assert TWO_TUNERS[0].key == "a" && TWO_TUNERS[1].key == "b";
      assert TWO_TUNERS[1].key[0] != TWO_TUNERS[0].key[0];
    }
    assert After(s1, ops[1]) == FIRST_LEASED;
    assert Run(UNBOUND, ops) == Run(s1, ops[1..]);
    assert Run(s1, ops[1..]) == Run(FIRST_LEASED, ops[1..][1..]);
  }

  lemma SecondTunerFits()
    ensures FIRST_LEASED.AssignmentsFit(map["b" := P25])
  {
    assert TWO_TUNERS[0].key == "a" && TWO_TUNERS[1].key == "b" && "a"[0] != "b"[0];
  }

  /** The second tuner can then be reserved for P25, although its device is in use by Listen. */
  lemma SiblingReservedUnderLease()
    ensures exists ops :: Run(UNBOUND, ops) == FIRST_LEASED
    ensures var s := After(FIRST_LEASED, SetAssignments(map["b" := P25]));
      s.Valid(FIRST_LEASED.leases[0]) && s.Shares(0, 1) && s.Assignment(1) == P25 && !SiblingsRespected(s)
  {
    FirstLeasedReachable();
    SecondTunerFits();
    var s := After(FIRST_LEASED, SetAssignments(map["b" := P25]));
    assert 0 in s.leases && s.Shares(0, 1);
  }

  /** The first tuner alone, leased to Listen, while the key of the second one is reserved for P25. */
  const FIRST_ALONE :=
    State([Endpoint("a", "dev")], map["b" := P25], map[0 := Token(0, 1, 1, Listen, "ui")], {}, map[], 0, 1, 1)

  lemma FirstAloneReachable()
    ensures Run(UNBOUND, [Bind([Endpoint("a", "dev")]), SetAssignments(map["b" := P25]), Claim(0, Listen, "ui")])
         == FIRST_ALONE
  {
    var ops := [Bind([Endpoint("a", "dev")]), SetAssignments(map["b" := P25]), Claim(0, Listen, "ui")];
    var s1 := UNBOUND.(endpoints := [Endpoint("a", "dev")], generation := 1);
    var s2 := s1.(assignments := map["b" := P25]);
    assert After(UNBOUND, ops[0]) == s1;
    assert After(s1, ops[1]) == s2 by {
      assert "a"[0] != "b"[0] && s1.AssignmentsFit(map["b" := P25]);
    }
    FirstAloneGranted(s2);
    assert Run(UNBOUND, ops) == Run(s1, ops[1..]) == Run(s2, ops[1..][1..]) == Run(FIRST_ALONE, ops[1..][1..][1..]);
  }

  lemma FirstAloneGranted(s: State)
    requires s == FIRST_ALONE.(leases := map[], nextId := 0)
    ensures After(s, Claim(0, Listen, "ui")) == FIRST_ALONE
  {
    assert "a"[0] != "b"[0] && s.Allowed(0, Listen, "ui");
  }

  /** A second tuner, appended to a device whose first one is leased to Listen, may be reserved for P25 already. */
  lemma AppendUnderLease()
    ensures exists ops :: Run(UNBOUND, ops) == FIRST_ALONE
    ensures var s' := After(FIRST_ALONE, Append(Endpoint("b", "dev")));
      && SiblingsRespected(FIRST_ALONE) && 0 in s'.leases && s'.Valid(s'.leases[0])
      && s'.Shares(0, 1) && s'.Assignment(1) == P25 && !SiblingsRespected(s')
  {
    FirstAloneReachable();
    assert "a"[0] != "b"[0];
    var s' := After(FIRST_ALONE, Append(Endpoint("b", "dev")));
    assert 0 in s'.leases && s'.Shares(0, 1);
  }

  // ---- The object ---------------------------------------------------------------------------

  class DeviceOwnership {
    var endpoints: seq<Endpoint>
    var assignments: map<string, Owner>
    var leases: map<nat, Token>
    var stopping: set<nat>
    var controls: map<nat, nat>
    var nextControlId: nat
    var generation: nat
    var nextId: nat

    ghost function Now(): State
      reads this
    {
      State(endpoints, assignments, leases, stopping, controls, nextControlId, generation, nextId)
    }

    constructor ()
      ensures Now() == UNBOUND
    {
      endpoints, assignments, leases, stopping, controls := [], map[], map[], {}, map[];
      nextControlId, generation, nextId := 0, 0, 0;
    }

    /** False where the source throws. */
    method Bind(endpoints: seq<Endpoint>) returns (ok: bool)
      modifies this
      ensures Now() == After(old(Now()), Operation.Bind(endpoints))
      ensures ok == (old(stopping) == {} && old(controls) == map[])
    {
      if stopping != {} || controls != map[] {
        return false;
      }
      this.endpoints, leases, generation := endpoints, map[], generation + 1;
      ok := true;
    }

    method Append(endpoint: Endpoint)
      modifies this
      ensures Now() == After(old(Now()), Operation.Append(endpoint))
    {
      endpoints := endpoints + [endpoint];
    }

    method Unique(index: nat) returns (ok: bool)
      ensures ok == Now().Unique(index)
    {
      if index >= |endpoints| || endpoints[index].key == "" {
        return false;
      }
      var count, i := 0, 0;
      while i < |endpoints|
        invariant 0 <= i <= |endpoints|
        invariant count == 0 <==> forall j :: 0 <= j < i ==> endpoints[j].key != endpoints[index].key
        invariant count <= 1 <==> forall j, k :: 0 <= j < k < i && endpoints[j].key == endpoints[index].key ==>
                                    endpoints[k].key != endpoints[index].key
      {
        if endpoints[i].key == endpoints[index].key {
          count := count + 1;
        }
        i := i + 1;
      }
      ok := count == 1;
    }

    predicate SameDomain(a: nat, b: nat)
      requires a < |endpoints| && b < |endpoints|
      reads this
    {
      endpoints[a].domain != "" && endpoints[a].domain == endpoints[b].domain
    }

    function Assignment(index: nat): (owner: Owner)
      reads this
      ensures owner == Now().Assignment(index)
    {
      if index < |endpoints| && endpoints[index].key in assignments then assignments[endpoints[index].key]
      else Automatic
    }

    method ControlBusy(index: nat) returns (busy: bool)
      requires InRange(Now())
      ensures busy == Now().ControlBusy(index)
    {
      if index >= |endpoints| {
        return false;
      }
      var rest := controls.Keys;
      while rest != {}
        invariant rest <= controls.Keys
        invariant forall other :: other in controls.Keys - rest ==> !Now().Shares(index, other)
      {
        var other :| other in rest;
        if other == index || SameDomain(index, other) {
          return true;
        }
        rest := rest - {other};
      }
      busy := false;
    }

    method StopBusy(index: nat) returns (busy: bool)
      requires InRange(Now()) && index < |endpoints|
      ensures busy == Now().StopBusy(index)
    {
      var rest := stopping;
      while rest != {}
        invariant rest <= stopping
        invariant forall other :: other in stopping - rest ==> !Now().Shares(index, other)
      {
        var other :| other in rest;
        if other == index || SameDomain(index, other) {
          return true;
        }
        rest := rest - {other};
      }
      busy := false;
    }

    /** No lease of another session on the endpoint, and none on a sibling. */
    method LeasesPermit(index: nat, owner: Owner, client: string) returns (ok: bool)
      requires InRange(Now()) && index < |endpoints|
      ensures ok <==> forall other :: other in leases && Now().Shares(index, other) ==>
        other == index && leases[other].owner == owner && leases[other].client == client
    {
      var rest := leases.Keys;
      while rest != {}
        invariant rest <= leases.Keys
        invariant forall other :: other in leases.Keys - rest && Now().Shares(index, other) ==>
          other == index && leases[other].owner == owner && leases[other].client == client
      {
        var other :| other in rest;
        if other == index {
          if leases[other].owner != owner || leases[other].client != client {
            return false;
          }
        } else if SameDomain(index, other) {
          return false;
        }
        rest := rest - {other};
      }
      ok := true;
    }

    /** No sibling is reserved for another workflow. */
    method SiblingsPermit(index: nat, owner: Owner) returns (ok: bool)
      requires index < |endpoints|
      ensures ok <==> forall i: nat :: i < |endpoints| && i != index && Now().Shares(index, i) ==>
                        Now().Assignment(i) in {Automatic, owner}
    {
      var i := 0;
      while i < |endpoints|
        invariant 0 <= i <= |endpoints|
        invariant forall j: nat :: j < i && j != index && Now().Shares(index, j) ==>
                    Now().Assignment(j) in {Automatic, owner}
      {
        if i != index && SameDomain(index, i) {
          var sibling := Assignment(i);
          if sibling != Automatic && sibling != owner {
            return false;
          }
        }
        i := i + 1;
      }
      ok := true;
    }

    method Allowed(index: nat, owner: Owner, client: string) returns (ok: bool)
      requires InRange(Now())
      ensures ok == Now().Allowed(index, owner, client)
    {
      if index >= |endpoints| || owner == Automatic {
        return false;
      }
      ok := StopBusy(index);
      if ok {
        return false;
      }
      ok := Unique(index);
      if !ok {
        return false;
      }
      ok := ControlBusy(index);
      if ok {
        return false;
      }
      var reserved := Assignment(index);
      if reserved != Automatic && reserved != owner {
        return false;
      }
      ok := LeasesPermit(index, owner, client);
      if !ok {
        return false;
      }
      ok := SiblingsPermit(index, owner);
    }

    /** The lease granted or already held; none when refused. */
    method Claim(index: nat, owner: Owner, client: string) returns (token: Option<Token>)
      requires InRange(Now())
      modifies this
      ensures Now() == After(old(Now()), Operation.Claim(index, owner, client))
      ensures token.Some? <==> client != "" && old(Now()).Allowed(index, owner, client)
      ensures token.Some? ==> index in leases && token.value == leases[index]
    {
      if client == "" {
        return None;
      }
      var ok := Allowed(index, owner, client);
      if !ok {
        return None;
      }
      if index in leases {
        return Some(leases[index]);
      }
      nextId := nextId + 1;
      var granted := Token(index, generation, nextId, owner, client);
      leases := leases[index := granted];
      token := Some(granted);
    }

    predicate Valid(token: Token)
      reads this
      ensures Valid(token) == Now().Valid(token)
    {
      token.id != 0 && token.generation == generation && token.index in leases && leases[token.index] == token
    }

    method Release(token: Token) returns (ok: bool)
      modifies this
      ensures Now() == After(old(Now()), Operation.Release(token)) && ok == old(Now()).Valid(token)
    {
      if !Valid(token) {
        return false;
      }
      leases := leases - {token.index};
      ok := true;
    }

    method Invalidate(index: nat)
      modifies this
      ensures Now() == After(old(Now()), Operation.Invalidate(index))
    {
      leases := leases - {index};
    }

    method BeginStop(index: nat) returns (began: bool)
      modifies this
      ensures Now() == After(old(Now()), Operation.BeginStop(index))
      ensures began == (index < |endpoints| && index !in old(stopping))
    {
      if index >= |endpoints| {
        return false;
      }
      began := index !in stopping;
      stopping := stopping + {index};
    }

    method EndStop(index: nat)
      modifies this
      ensures Now() == After(old(Now()), Operation.EndStop(index))
    {
      stopping := stopping - {index};
    }

    /** The part of the check that asks who wants control: the holder of the endpoint's lease, or the host. */
    method HolderPermits(index: nat, holder: Option<Token>) returns (ok: bool)
      requires InRange(Now()) && index < |endpoints|
      ensures ok <==>
        match holder
        case Some(t) => t.index == index && Now().Valid(t) && Now().Allowed(index, t.owner, t.client)
        case None => forall other :: other in leases && Now().Shares(index, other) ==>
          other == index && leases[other].owner == Listen && leases[other].client == "legacy-listen"
    {
      match holder {
        case Some(token) =>
          if token.index != index || !Valid(token) {
            return false;
          }
          ok := Allowed(index, token.owner, token.client);
        case None =>
          ok := LeasesPermit(index, Listen, "legacy-listen");
      }
    }

    /** A control permit for the endpoint, by the holder of a lease or by the host; none when refused. */
    method BeginControl(index: nat, holder: Option<Token>) returns (id: Option<nat>)
      requires InRange(Now())
      modifies this
      ensures Now() == After(old(Now()), Operation.BeginControl(index, holder))
      ensures id == if old(Now()).MayControl(index, holder) then Some(nextControlId) else None
    {
      var ok := Unique(index);
      if !ok {
        return None;
      }
      ok := ControlBusy(index);
      if ok {
        return None;
      }
      ok := StopBusy(index);
      if ok {
        return None;
      }
      ok := HolderPermits(index, holder);
      if !ok {
        return None;
      }
      nextControlId := nextControlId + 1;
      controls := controls[index := nextControlId];
      id := Some(nextControlId);
    }

    method EndControl(index: nat, id: nat) returns (ok: bool)
      modifies this
      ensures Now() == After(old(Now()), Operation.EndControl(index, id))
      ensures ok == (index in old(controls) && old(controls)[index] == id)
    {
      if index !in controls || controls[index] != id {
        return false;
      }
      controls := controls - {index};
      ok := true;
    }

    /** The check of one endpoint against a new reservation table. */
    method EndpointFits(values: map<string, Owner>, i: nat) returns (ok: bool)
      requires InRange(Now()) && i < |endpoints|
      ensures ok <==> Now().EndpointFits(values, i)
    {
      var found := endpoints[i].key in values;
      if found {
        ok := Unique(i);
        if !ok {
          return false;
        }
      }
      var next := if found then values[endpoints[i].key] else Automatic;
      if Assignment(i) != next && i in leases {
        return false;
      }
      var j := 0;
      while j < i
        invariant 0 <= j <= i
        invariant forall k: nat :: k < j && Now().SameDomain(i, k) ==>
          next == Automatic || endpoints[k].key !in values || values[endpoints[k].key] == next
      {
        if SameDomain(i, j) && next != Automatic && endpoints[j].key in values && values[endpoints[j].key] != next {
          return false;
        }
        j := j + 1;
      }
      ok := true;
    }

    /** The check of the entries of a new reservation table. */
    method EntriesFit(values: map<string, Owner>) returns (ok: bool)
      ensures ok <==> forall key :: key in values ==> 0 < |key| <= 512 && values[key] != Automatic
    {
      var rest := values.Keys;
      while rest != {}
        invariant rest <= values.Keys
        invariant forall key :: key in values.Keys - rest ==> 0 < |key| <= 512 && values[key] != Automatic
      {
        var key :| key in rest;
        if |key| == 0 || |key| > 512 || values[key] == Automatic {
          return false;
        }
        rest := rest - {key};
      }
      ok := true;
    }

    /** The check of the endpoints against it. */
    method EndpointsFit(values: map<string, Owner>) returns (ok: bool)
      requires InRange(Now())
      ensures ok <==> forall i: nat :: i < |endpoints| ==> Now().EndpointFits(values, i)
    {
      var i := 0;
      while i < |endpoints|
        invariant 0 <= i <= |endpoints| && forall k: nat :: k < i ==> Now().EndpointFits(values, k)
      {
        ok := EndpointFits(values, i);
        if !ok {
          return false;
        }
        i := i + 1;
      }
      ok := true;
    }

    method SetAssignments(values: map<string, Owner>) returns (ok: bool)
      requires InRange(Now())
      modifies this
      ensures Now() == After(old(Now()), Operation.SetAssignments(values)) && ok == old(Now()).AssignmentsFit(values)
    {
      if controls != map[] || stopping != {} || |values| > 128 {
        return false;
      }
      ok := EntriesFit(values);
      if !ok {
        return false;
      }
      ok := EndpointsFit(values);
      assert ok == Now().AssignmentsFit(values) && Now() == old(Now());
      if ok {
        assignments := values;
      }
    }
  }
}
