/** The connections of each user over whole runs: who is listed, in which order, and who has to go at the cap. */
module HubUsers {
  import opened Common
  import opened Uuids
  import HubInvariants
  import opened HubModel
  import opened HubRuns

  function UserList(s: State, user: User): seq<Connection> {
    if user in s.connectionsByUser then s.connectionsByUser[user] else []
  }

  // ---- who is listed, from the history alone --------------------------------------------------------------

  /** Step k registers one of the user's connections. */
  predicate Registers(cfg: Config, ops: seq<Op>, k: nat, user: User) {
    k < |ops| && user != "" && ops[k].RegisterConnection? && cfg.subject(ops[k].c) == user
  }

  /** Before step i, what step k registered has been neither unregistered nor displaced since. */
  ghost predicate Listed(cfg: Config, ops: seq<Op>, user: User, k: nat, i: nat)
    requires i <= |ops|
    decreases i, 0, 0
  {
    && k < i && Registers(cfg, ops, k, user)
    && (k < i - 1 ==>
          && Listed(cfg, ops, user, k, i - 1)
          && ops[i - 1] != UnregisterConnection(ops[k].c)
          && Displaces(cfg, ops, user, i - 1) != Some(k))
  }

  /** The steps below n that registered what is listed before step i, oldest first. */
  ghost function ListedBelow(cfg: Config, ops: seq<Op>, user: User, i: nat, n: nat): seq<nat>
    requires i <= |ops|
    decreases i, 1, n
  {
    if n == 0 then []
    else ListedBelow(cfg, ops, user, i, n - 1) + if Listed(cfg, ops, user, n - 1, i) then [n - 1] else []
  }

  /** A registration of a user who has as many connections listed as the cap allows displaces the oldest of them. */
  ghost function Displaces(cfg: Config, ops: seq<Op>, user: User, m: nat): Option<nat>
    requires m < |ops|
    decreases m, 2, 0
  {
    var listed := ListedBelow(cfg, ops, user, m, m);
    if Registers(cfg, ops, m, user) && listed != [] && 0 < cfg.maxPerUser <= |listed| then Some(listed[0]) else None
  }

  function Registered(ops: seq<Op>, k: nat): Connection {
    if k < |ops| && ops[k].RegisterConnection? then ops[k].c else 0
  }

  function AllRegistered(ops: seq<Op>, ks: seq<nat>): seq<Connection> {
    if ks == [] then [] else AllRegistered(ops, ks[..|ks| - 1]) + [Registered(ops, ks[|ks| - 1])]
  }

  /** The user's connections before step i: those registered and since neither unregistered nor displaced, in order of registration. */
  ghost function Present(cfg: Config, ops: seq<Op>, user: User, i: nat): seq<Connection>
    requires i <= |ops|
  {
    AllRegistered(ops, ListedBelow(cfg, ops, user, i, i))
  }

  // ---- how one step changes that ------------------------------------------------------------------------------

  lemma OneMore(ops: seq<Op>, ks: seq<nat>, k: nat)
    ensures AllRegistered(ops, ks + [k]) == AllRegistered(ops, ks) + [Registered(ops, k)]
  {
    assert (ks + [k])[..|ks|] == ks;
  }

  lemma {:induction false} OneLess(ops: seq<Op>, ks: seq<nat>)
    ensures |AllRegistered(ops, ks)| == |ks|
    ensures ks != [] ==> AllRegistered(ops, ks)[0] == Registered(ops, ks[0]) && AllRegistered(ops, ks[1..]) == AllRegistered(ops, ks)[1..]
  {
    if |ks| > 0 {
      var front, last := ks[..|ks| - 1], ks[|ks| - 1];
      OneLess(ops, front);
      if front == [] {
        assert ks[1..] == [] && AllRegistered(ops, front) == [];
      } else {
        assert ks[1..] == front[1..] + [last];
        OneMore(ops, front[1..], last);
      }
    }
  }

  lemma ListedNext(cfg: Config, ops: seq<Op>, user: User, k: nat, i: nat)
    requires i < |ops| && k <= i
    ensures Listed(cfg, ops, user, k, i + 1) ==> Registers(cfg, ops, k, user)
    ensures Listed(cfg, ops, user, k, i + 1) <==>
      if k == i then Registers(cfg, ops, k, user)
      else Listed(cfg, ops, user, k, i) && ops[i] != UnregisterConnection(ops[k].c) && Displaces(cfg, ops, user, i) != Some(k)
  {
    hide ListedBelow;
  }

  lemma ListedRegisters(cfg: Config, ops: seq<Op>, user: User, k: nat, i: nat)
    requires i <= |ops| && Listed(cfg, ops, user, k, i)
    ensures Registers(cfg, ops, k, user) && Registered(ops, k) == ops[k].c
  {
  }

  lemma BelowNext(cfg: Config, ops: seq<Op>, user: User, i: nat, n: nat)
    requires i <= |ops| && n > 0
    ensures var front := ListedBelow(cfg, ops, user, i, n - 1);
      ListedBelow(cfg, ops, user, i, n) == if Listed(cfg, ops, user, n - 1, i) then front + [n - 1] else front
  {
  }

  lemma {:induction false} AllAreTheUsers(cfg: Config, ops: seq<Op>, user: User, i: nat, n: nat)
    requires i <= |ops|
    ensures forall c :: c in AllRegistered(ops, ListedBelow(cfg, ops, user, i, n)) ==> cfg.subject(c) == user
  {
    hide Listed, ListedBelow, AllRegistered;
    if n == 0 {
      assert AllRegistered(ops, ListedBelow(cfg, ops, user, i, 0)) == [] by { NothingBelow(cfg, ops, user, i); }
    } else {
      AllAreTheUsers(cfg, ops, user, i, n - 1);
      BelowNext(cfg, ops, user, i, n);
      OneMore(ops, ListedBelow(cfg, ops, user, i, n - 1), n - 1);
      if Listed(cfg, ops, user, n - 1, i) {
        ListedRegisters(cfg, ops, user, n - 1, i);
      }
    }
  }

  lemma NothingBelow(cfg: Config, ops: seq<Op>, user: User, i: nat)
    requires i <= |ops|
    ensures ListedBelow(cfg, ops, user, i, 0) == [] && AllRegistered(ops, []) == []
  {
  }

  lemma {:induction false} UnregisteredGoes(cfg: Config, ops: seq<Op>, user: User, i: nat, n: nat)
    requires i < |ops| && ops[i].UnregisterConnection? && n <= i
    ensures AllRegistered(ops, ListedBelow(cfg, ops, user, i + 1, n))
      == Without(AllRegistered(ops, ListedBelow(cfg, ops, user, i, n)), ops[i].c)
  {
    hide Listed, ListedBelow, AllRegistered;
    if n == 0 {
      NothingBelow(cfg, ops, user, i);
      NothingBelow(cfg, ops, user, i + 1);
    } else {
      UnregisteredGoes(cfg, ops, user, i, n - 1);
      BelowNext(cfg, ops, user, i, n);
      BelowNext(cfg, ops, user, i + 1, n);
      ListedNext(cfg, ops, user, n - 1, i);
      NoneDisplaced(cfg, ops, user, i);
      if Listed(cfg, ops, user, n - 1, i) {
        ListedRegisters(cfg, ops, user, n - 1, i);
      }
      OneMore(ops, ListedBelow(cfg, ops, user, i, n - 1), n - 1);
      OneMore(ops, ListedBelow(cfg, ops, user, i + 1, n - 1), n - 1);
      WithoutSnoc(AllRegistered(ops, ListedBelow(cfg, ops, user, i, n - 1)), Registered(ops, n - 1), ops[i].c);
    }
  }

  lemma NoneDisplaced(cfg: Config, ops: seq<Op>, user: User, i: nat)
    requires i < |ops| && !Registers(cfg, ops, i, user)
    ensures Displaces(cfg, ops, user, i).None?
  {
  }

  lemma WithoutSnoc(list: seq<Connection>, last: Connection, c: Connection)
    ensures Without(list + [last], c) == Without(list, c) + if last == c then [] else [last]
  {
    assert (list + [last])[..|list|] == list;
  }

  lemma {:induction false} NobodyGoes(cfg: Config, ops: seq<Op>, user: User, i: nat, n: nat)
    requires i < |ops| && !ops[i].UnregisterConnection? && Displaces(cfg, ops, user, i).None? && n <= i
    ensures ListedBelow(cfg, ops, user, i + 1, n) == ListedBelow(cfg, ops, user, i, n)
  {
    hide Listed, ListedBelow, Displaces;
    if n == 0 {
      NothingBelow(cfg, ops, user, i);
      NothingBelow(cfg, ops, user, i + 1);
    } else {
      NobodyGoes(cfg, ops, user, i, n - 1);
      BelowNext(cfg, ops, user, i, n);
      BelowNext(cfg, ops, user, i + 1, n);
      ListedNext(cfg, ops, user, n - 1, i);
    }
  }

  lemma {:induction false} BelowIsPrefix(cfg: Config, ops: seq<Op>, user: User, i: nat, n: nat, m: nat)
    requires i <= |ops| && n <= m
    ensures ListedBelow(cfg, ops, user, i, n) <= ListedBelow(cfg, ops, user, i, m)
    ensures forall k :: k in ListedBelow(cfg, ops, user, i, n) ==> k < n
    decreases m
  {
    hide Listed, ListedBelow;
    if m > n {
      BelowIsPrefix(cfg, ops, user, i, n, m - 1);
      BelowNext(cfg, ops, user, i, m);
    } else if n > 0 {
      BelowIsPrefix(cfg, ops, user, i, n - 1, n - 1);
      BelowNext(cfg, ops, user, i, n);
    } else {
      NothingBelow(cfg, ops, user, i);
    }
  }

  lemma OldestIsFirst(cfg: Config, ops: seq<Op>, user: User, i: nat)
    requires i < |ops| && Displaces(cfg, ops, user, i).Some?
    ensures var listed := ListedBelow(cfg, ops, user, i, i);
      listed != [] && Displaces(cfg, ops, user, i).value == listed[0]
    ensures ops[i].RegisterConnection?
  {
  }

  lemma {:induction false} OldestGoes(cfg: Config, ops: seq<Op>, user: User, i: nat, n: nat)
    requires i < |ops| && Displaces(cfg, ops, user, i).Some? && n <= i
    ensures var before := ListedBelow(cfg, ops, user, i, n);
      ListedBelow(cfg, ops, user, i + 1, n) == if before == [] then [] else before[1..]
  {
    hide Listed, ListedBelow, Displaces;
    if n == 0 {
      NothingBelow(cfg, ops, user, i);
      NothingBelow(cfg, ops, user, i + 1);
    } else {
      OldestGoes(cfg, ops, user, i, n - 1);
      OldestIsFirst(cfg, ops, user, i);
      BelowNext(cfg, ops, user, i, n);
      BelowNext(cfg, ops, user, i + 1, n);
      ListedNext(cfg, ops, user, n - 1, i);
      BelowIsPrefix(cfg, ops, user, i, n - 1, n);
      BelowIsPrefix(cfg, ops, user, i, n, i);
      var before := ListedBelow(cfg, ops, user, i, n - 1);
      if before != [] {
        assert before[0] in before && before[0] == Displaces(cfg, ops, user, i).value;
      }
    }
  }

  lemma DisplacesWhom(cfg: Config, ops: seq<Op>, user: User, i: nat)
    requires i < |ops|
    ensures var before := Present(cfg, ops, user, i);
      Displaces(cfg, ops, user, i).Some? <==> Registers(cfg, ops, i, user) && before != [] && 0 < cfg.maxPerUser <= |before|
  {
    OneLess(ops, ListedBelow(cfg, ops, user, i, i));
    hide Listed, ListedBelow;
  }

  /** One more step: an unregistered connection goes, a new one comes last, and at the cap the oldest goes for it. */
  lemma PresentNext(cfg: Config, ops: seq<Op>, user: User, i: nat)
    requires i < |ops|
    ensures var before, after := Present(cfg, ops, user, i), Present(cfg, ops, user, i + 1);
      after ==
      if ops[i].UnregisterConnection? then Without(before, ops[i].c)
      else if Registers(cfg, ops, i, user)
      then (if before != [] && 0 < cfg.maxPerUser <= |before| then before[1..] else before) + [ops[i].c]
      else before
  {
    DisplacesWhom(cfg, ops, user, i);
    hide Listed, ListedBelow, Displaces, AllRegistered;
    var was, kept := ListedBelow(cfg, ops, user, i, i), ListedBelow(cfg, ops, user, i + 1, i);
    BelowNext(cfg, ops, user, i + 1, i + 1);
    ListedNext(cfg, ops, user, i, i);
    OneLess(ops, was);
    OneMore(ops, kept, i);
    if ops[i].UnregisterConnection? {
      UnregisteredGoes(cfg, ops, user, i, i);
    } else if Displaces(cfg, ops, user, i).Some? {
      OldestGoes(cfg, ops, user, i, i);
    } else {
      NobodyGoes(cfg, ops, user, i, i);
    }
  }

  // ---- the hub's lists are those ----------------------------------------------------------------------------------

  lemma DeletionSparesUsers(s: State, t: Uuid, r: State)
    requires HubInvariants.IndexesAgree(s) && HubInvariants.DeletesTag(s, t, r)
    ensures r.connectionsByUser == s.connectionsByUser
  {
    if t != NIL_UUID {
      HubInvariants.DeleteTagForAll(s, t, r);
    }
  }

  lemma RegisterLists(cfg: Config, s: State, c: Connection, user: User)
    requires UsersTidy(cfg, s)
    ensures var before := UserList(s, user);
      UserList(Register(s, c, cfg.subject(c), cfg.maxPerUser), user) ==
      if user != "" && cfg.subject(c) == user
      then (if before != [] && 0 < cfg.maxPerUser <= |before| then before[1..] else before) + [c]
      else before
  {
  }

  lemma UnregisterLists(cfg: Config, s: State, c: Connection, user: User)
    requires UsersTidy(cfg, s)
    ensures UserList(Unregister(s, c, cfg.subject(c)), user)
      == if cfg.subject(c) == user then Without(UserList(s, user), c) else UserList(s, user)
  {
    WithoutFacts(UserList(s, user), c);
  }

  lemma OthersSpareUsers(cfg: Config, s: State, op: Op, r: State)
    requires HubInvariants.IndexesAgree(s) && Next(cfg, s, op, r) && !op.RegisterConnection? && !op.UnregisterConnection?
    ensures r.connectionsByUser == s.connectionsByUser
  {
    hide HubInvariants.IndexesAgree;
    if op.DeleteTag? {
      DeletionSparesUsers(s, op.t, r);
    }
  }

  /** What one section does to a user's list. */
  lemma ListNext(cfg: Config, s: State, op: Op, r: State, user: User)
    requires Consistent(cfg, s) && Next(cfg, s, op, r)
    ensures var before := UserList(s, user);
      UserList(r, user) ==
      if op.UnregisterConnection? && cfg.subject(op.c) == user then Without(before, op.c)
      else if op.RegisterConnection? && user != "" && cfg.subject(op.c) == user
      then (if before != [] && 0 < cfg.maxPerUser <= |before| then before[1..] else before) + [op.c]
      else before
  {
    hide Register, Unregister, Without;
    if op.RegisterConnection? {
      RegisterLists(cfg, s, op.c, user);
    } else if op.UnregisterConnection? {
      UnregisterLists(cfg, s, op.c, user);
    } else {
      OthersSpareUsers(cfg, s, op, r);
    }
  }

  lemma StepLists(cfg: Config, ops: seq<Op>, k: nat, s: State, r: State, user: User)
    requires k < |ops| && Consistent(cfg, s) && Next(cfg, s, ops[k], r) && UserList(s, user) == Present(cfg, ops, user, k)
    ensures UserList(r, user) == Present(cfg, ops, user, k + 1)
  {
    hide Next, Without, UserList, Present, IsRun;
    ListNext(cfg, s, ops[k], r, user);
    PresentNext(cfg, ops, user, k);
    if ops[k].UnregisterConnection? && cfg.subject(ops[k].c) != user {
      var present := Present(cfg, ops, user, k);
      assert ops[k].c !in present by { PresentAreTheUsers(cfg, ops, user, k); }
      WithoutFacts(present, ops[k].c);
    }
  }

  lemma PresentAreTheUsers(cfg: Config, ops: seq<Op>, user: User, k: nat)
    requires k <= |ops|
    ensures forall c :: c in Present(cfg, ops, user, k) ==> cfg.subject(c) == user
  {
    AllAreTheUsers(cfg, ops, user, k, k);
  }

  /** In every state of every run each user's list is exactly the connections of that user that were registered and since neither
    * unregistered nor displaced, in order of registration. */
  lemma {:induction false} RunsListUsers(cfg: Config, states: seq<State>, ops: seq<Op>, i: nat, user: User)
    requires IsRun(cfg, states, ops) && i < |states|
    ensures UserList(states[i], user) == Present(cfg, ops, user, i)
  {
    if i > 0 {
      RunsListUsers(cfg, states, ops, i - 1, user);
      RunsAreConsistent(cfg, states, ops, i - 1);
      hide Next, Consistent, Present, UserList;
      assert Next(cfg, states[i - 1], ops[i - 1], states[i - 1 + 1]);
      StepLists(cfg, ops, i - 1, states[i - 1], states[i], user);
    }
  }

  /** The connection that a registration returns to be closed is the oldest of those, and there is one exactly when the user already has as
    * many as the cap allows. */
  lemma RunsDisplaceOldest(cfg: Config, states: seq<State>, ops: seq<Op>, i: nat)
    requires IsRun(cfg, states, ops) && i < |ops| && ops[i].RegisterConnection?
    ensures var user := cfg.subject(ops[i].c);
      var present := Present(cfg, ops, user, i);
      Displaced(states[i].connectionsByUser, ops[i].c, user, cfg.maxPerUser)
      == if user != "" && 0 < cfg.maxPerUser <= |present| then Some(present[0]) else None
  {
    RunsListUsers(cfg, states, ops, i, cfg.subject(ops[i].c));
  }

  /** Unregistering a connection takes its entry out of its user's list and leaves every other entry of every list in place and in order. */
  lemma UnregisterLeavesOthers(s: State, c: Connection, user: User, front: seq<Connection>, back: seq<Connection>, other: User)
    requires UserList(s, user) == front + [c] + back && c !in front && c !in back && user != "" && other != user
    ensures UserList(Unregister(s, c, user), user) == front + back
    ensures UserList(Unregister(s, c, user), other) == UserList(s, other)
  {
    WithoutOne(front, c, back);
  }

  lemma {:induction false} WithoutOne(front: seq<Connection>, c: Connection, back: seq<Connection>)
    requires c !in front && c !in back
    ensures Without(front + [c] + back, c) == front + back
  {
    var list := front + [c] + back;
    if back == [] {
      assert list[..|list| - 1] == front;
      WithoutFacts(front, c);
    } else {
      assert list[..|list| - 1] == front + [c] + back[..|back| - 1];
      WithoutOne(front, c, back[..|back| - 1]);
    }
  }
}
