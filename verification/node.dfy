/**
 The entity handle `Node`: an immutable role, a baseline status and field data (as last
 loaded or synchronised), the relation table of its relation trait, and an optional live
 `State` created lazily on the first mutation. While a live State exists it is the
 source of truth for reads; `SyncState` promotes it to the baseline and `ResetState`
 throws it away.
 */
module Nodes {
  import opened Fields
  import opened ArrayDiff
  import States

  /** Lifecycle stages of an entity in the pool. The Node accepts any integer status;
      these are the values the rest of the system uses. */
  const PROMISED: int := 0
  const NEW: int := 1
  const LOADED: int := 2
  const SCHEDULED_INSERT: int := 3
  const SCHEDULED_UPDATE: int := 4
  const SCHEDULED_DELETE: int := 5

  datatype Option<T> = None | Some(value: T)

  datatype Node<V, R> = Node(
    role: string,
    status: int,
    data: Data<V>,
    state: Option<States.State<V, R>>,
    relations: map<string, R>)

  /** `n'` has the same role, baseline and relation table as `n`; only the live State
      may differ. */
  ghost predicate SameBaseline<V, R>(n: Node<V, R>, n': Node<V, R>)
  {
    && n'.role == n.role
    && n'.status == n.status
    && n'.data == n.data
    && n'.relations == n.relations
  }

  /** `r` is `table` after storing every entry of `incoming` by name: incoming names
      take the incoming reference, every other name keeps its old one. */
  ghost predicate Absorbs<R>(table: map<string, R>, incoming: map<string, R>, r: map<string, R>)
  {
    && r.Keys == table.Keys + incoming.Keys
    && (forall name :: name in incoming ==> r[name] == incoming[name])
    && (forall name :: name in table && name !in incoming ==> r[name] == table[name])
  }

  /** The constructor: a handle with the given baseline and no live State. */
  function Create<V, R>(status: int, data: Data<V>, role: string): (n: Node<V, R>)
    ensures GetRole(n) == role
    ensures GetStatus(n) == status && GetData(n) == data
    ensures n.state.None? && n.relations == map[]
  {
    Node(role, status, data, None, map[])
  }

  /** The role the handle was constructed with; no operation replaces it. */
  function GetRole<V, R>(n: Node<V, R>): (role: string)
    ensures role == n.role
  {
    n.role
  }

  /** Read-through status: the live State's when there is one, the baseline's otherwise. */
  function GetStatus<V, R>(n: Node<V, R>): (status: int)
    ensures n.state.None? ==> status == n.status
    ensures n.state.Some? ==> status == n.state.value.status
  {
    match n.state
    case Some(st) => st.status
    case None => n.status
  }

  /** Read-through data: the live State's when there is one, the baseline's otherwise. */
  function GetData<V, R>(n: Node<V, R>): (data: Data<V>)
    ensures n.state.None? ==> data == n.data
    ensures n.state.Some? ==> data == n.state.value.data
  {
    match n.state
    case Some(st) => st.data
    case None => n.data
  }

  /** Get-or-create: returns the handle with its live State present, and that State. */
  function GetState<V, R>(n: Node<V, R>): (r: (Node<V, R>, States.State<V, R>))
    ensures r.0.state == Some(r.1)
    ensures SameBaseline(n, r.0)
    ensures r.1.status == GetStatus(n) && r.1.data == GetData(n)
    ensures n.state.Some? ==> r.0 == n && r.1 == n.state.value
    ensures n.state.None? ==> r.1 == States.Create(n.status, n.data)
  {
    match n.state
    case Some(st) => (n, st)
    case None =>
      var st := States.Create(n.status, n.data);
      (n.(state := Some(st)), st)
  }

  /** Sets the status on the live State, creating it first if needed. */
  function SetStatus<V, R>(n: Node<V, R>, status: int): (r: Node<V, R>)
    ensures r.state.Some? && SameBaseline(n, r)
    ensures GetStatus(r) == status
    ensures GetData(r) == GetData(n)
    ensures r.state.value.relations == GetState(n).1.relations
  {
    var (n1, st) := GetState(n);
    n1.(state := Some(States.SetStatus(st, status)))
  }

  /** Hands new data to the live State's `setData`, creating the State first if needed. */
  function SetData<V, R, C>(n: Node<V, R>, data: Data<V>, b: States.Behaviour<V, R, C>): (r: Node<V, R>)
    ensures r.state.Some? && SameBaseline(n, r)
    ensures r.state.value == b.setData(GetState(n).1, data)
  {
    var (n1, st) := GetState(n);
    n1.(state := Some(b.setData(st, data)))
  }

  /** Registers `acceptor` on the live State as a consumer of `key`, to receive it in
      `target`; the State is created first if needed. */
  function Listen<V, R, C>(n: Node<V, R>, key: string, acceptor: C, target: string, trigger: bool,
                           stream: int, b: States.Behaviour<V, R, C>): (r: Node<V, R>)
    ensures r.state.Some? && SameBaseline(n, r)
    ensures r.state.value == b.listen(GetState(n).1, key, acceptor, target, trigger, stream)
  {
    var (n1, st) := GetState(n);
    n1.(state := Some(b.listen(st, key, acceptor, target, trigger, stream)))
  }

  /** Produces `value` under `key` on the live State; the State is created first if needed. */
  function Register<V, R, C>(n: Node<V, R>, key: string, value: V, update: bool, stream: int,
                             b: States.Behaviour<V, R, C>): (r: Node<V, R>)
    ensures r.state.Some? && SameBaseline(n, r)
    ensures r.state.value == b.register(GetState(n).1, key, value, update, stream)
  {
    var (n1, st) := GetState(n);
    n1.(state := Some(b.register(st, key, value, update, stream)))
  }

  /** Some other holder of the live State changes it between two calls on the Node: the
      State that `GetState` hands out is shared, and a producer may write into it as a
      consumer. Without a live State there is nothing to write into. */
  function ExternalWrite<V, R>(n: Node<V, R>, write: States.State<V, R> -> States.State<V, R>): (r: Node<V, R>)
    ensures SameBaseline(n, r)
    ensures r.state.Some? <==> n.state.Some?
    ensures n.state.Some? ==> r.state.value == write(n.state.value)
  {
    match n.state
    case Some(st) => n.(state := Some(write(st)))
    case None => n
  }

  /** The relation trait's `setRelation`: stores one reference under its name. */
  function SetRelation<R>(relations: map<string, R>, name: string, relation: R): (r: map<string, R>)
    ensures Absorbs(relations, map[name := relation], r)
  {
    relations[name := relation]
  }

  /** Storing a table of references by name has exactly one outcome, the map union in
      which the incoming references win; so the fold-back loop and the relation table
      `SyncState` produces agree. */
  lemma AbsorbsDeterminesTable<R>(table: map<string, R>, incoming: map<string, R>, r: map<string, R>)
    requires Absorbs(table, incoming, r)
    ensures r == table + incoming
  {
  }

  /** The fold-back loop of synchronisation: every (name, relation) entry of the live
      State's relation table is handed to `SetRelation`, one at a time. */
  method FoldRelations<R>(table: map<string, R>, incoming: map<string, R>) returns (r: map<string, R>)
    ensures Absorbs(table, incoming, r)
  {
    r := table;
    var todo := incoming.Keys;
    while todo != {}
      invariant todo <= incoming.Keys
      invariant r.Keys == table.Keys + (incoming.Keys - todo)
      invariant forall name :: name in incoming && name !in todo ==> r[name] == incoming[name]
      invariant forall name :: name in table && name !in incoming ==> r[name] == table[name]
      decreases todo
    {
      var name :| name in todo;
      r := SetRelation(r, name, incoming[name]);
      todo := todo - {name};
    }
  }

  /** What `SyncState` returns: the change-set and the handle afterwards. */
  datatype Synced<V, R> = Synced(changes: Data<V>, node: Node<V, R>)

  /** Synchronise: with no live State, report nothing and change nothing. Otherwise report
      the value-based diff of the live data against the baseline, fold the live relations
      into the relation table, make the live data the baseline with status LOADED, and
      drop the live State. */
  function SyncState<V(==), R>(n: Node<V, R>): (r: Synced<V, R>)
    ensures n.state.None? ==> r.changes == map[] && r.node == n
    ensures n.state.Some? ==>
              var live := n.state.value.data;
              && r.node.role == n.role
              && r.node.status == LOADED
              && r.node.data == live
              && r.node.state.None?
              && Absorbs(n.relations, n.state.value.relations, r.node.relations)
              && r.changes.Keys <= live.Keys
              && (forall k :: k in r.changes ==> r.changes[k] == live[k])
              && (forall k :: k in live ==> (k in r.changes <==> live[k] !in n.data.Values))
  {
    match n.state
    case None => Synced(map[], n)
    case Some(st) =>
      var changes := Changes(st.data, n.data);
      Synced(changes, n.(status := LOADED, data := st.data, state := None,
                         relations := n.relations + st.relations))
  }

  /** Abort: drop the live State and every change held in it. */
  function ResetState<V, R>(n: Node<V, R>): (r: Node<V, R>)
    ensures r.state.None? && SameBaseline(n, r)
    ensures GetStatus(r) == n.status && GetData(r) == n.data
  {
    n.(state := None)
  }
}
