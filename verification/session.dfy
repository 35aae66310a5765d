/**
 Sequences of calls on one Node, as the unit of work issues them, and the properties that
 relate several calls: the role never changes, mutations leave the baseline alone until a
 synchronisation, a reset undoes every mutation since the last synchronisation, and a
 synchronisation leaves a clean handle whose next synchronisation reports nothing.
 */
module Sessions {
  import opened Fields
  import opened ArrayDiff
  import States
  import opened Nodes

  /** One public call on a Node, or a write into its live State by another holder of it. */
  datatype Call<!V, !R, C> =
    | GetStateCall
    | SetStatusCall(status: int)
    | SetDataCall(data: Data<V>)
    | ListenCall(key: string, acceptor: C, target: string, trigger: bool, stream: int)
    | RegisterCall(key: string, value: V, update: bool, stream: int)
    | SyncCall
    | ResetCall
    | ExternalCall(write: States.State<V, R> -> States.State<V, R>)

  /** Calls that go through the Node and create its live State if it is missing. */
  predicate Materialises<V, R, C>(c: Call<V, R, C>)
  {
    c.GetStateCall? || c.SetStatusCall? || c.SetDataCall? || c.ListenCall? || c.RegisterCall?
  }

  /** Calls that only touch the live State. */
  predicate IsMutation<V, R, C>(c: Call<V, R, C>)
  {
    Materialises(c) || c.ExternalCall?
  }

  function Apply<V(==), R, C>(n: Node<V, R>, c: Call<V, R, C>, b: States.Behaviour<V, R, C>): (r: Node<V, R>)
    ensures r.role == n.role
    ensures n.relations.Keys <= r.relations.Keys
    ensures IsMutation(c) ==> SameBaseline(n, r) && (n.state.Some? ==> r.state.Some?)
    ensures Materialises(c) ==> r.state.Some?
  {
    match c
    case GetStateCall => GetState(n).0
    case SetStatusCall(s) => SetStatus(n, s)
    case SetDataCall(d) => SetData(n, d, b)
    case ListenCall(key, acceptor, target, trigger, stream) =>
      Listen(n, key, acceptor, target, trigger, stream, b)
    case RegisterCall(key, value, update, stream) => Register(n, key, value, update, stream, b)
    case SyncCall => SyncState(n).node
    case ResetCall => ResetState(n)
    case ExternalCall(write) => ExternalWrite(n, write)
  }

  /** The handle after issuing `calls` in order. The role is fixed for the handle's whole
      life, and relation references, once stored, are never forgotten. */
  function Run<V(==), R, C>(n: Node<V, R>, calls: seq<Call<V, R, C>>, b: States.Behaviour<V, R, C>): (r: Node<V, R>)
    ensures GetRole(r) == GetRole(n)
    ensures n.relations.Keys <= r.relations.Keys
    decreases |calls|
  {
    if calls == [] then n else Run(Apply(n, calls[0], b), calls[1..], b)
  }

  /** Without a live State, reads return exactly the baseline; for a fresh handle that is
      what the constructor was given. */
  lemma ReadsWithoutStateAreBaseline<V, R>(n: Node<V, R>)
    requires n.state.None?
    ensures GetStatus(n) == n.status && GetData(n) == n.data
  {
  }

  /** Get-or-create is idempotent: once the State exists, asking again returns the same
      State and the same handle. */
  lemma GetStateIsIdempotent<V, R>(n: Node<V, R>)
    ensures GetState(GetState(n).0) == GetState(n)
  {
  }

  /** A run of mutations never changes the baseline. A live State, once present or
      created by a call through the Node, is still present at the end. */
  lemma {:induction false} MutationsKeepBaseline<V, R, C>(n: Node<V, R>, calls: seq<Call<V, R, C>>,
                                                          b: States.Behaviour<V, R, C>)
    requires forall i :: 0 <= i < |calls| ==> IsMutation(calls[i])
    ensures SameBaseline(n, Run(n, calls, b))
    ensures n.state.Some? || (exists i :: 0 <= i < |calls| && Materialises(calls[i])) ==>
              Run(n, calls, b).state.Some?
    decreases |calls|
  {
    if calls != [] {
      var n1 := Apply(n, calls[0], b);
      assert IsMutation(calls[0]);
      MutationsKeepBaseline(n1, calls[1..], b);
      if exists i :: 0 <= i < |calls| && Materialises(calls[i]) {
        var i :| 0 <= i < |calls| && Materialises(calls[i]);
        if i > 0 {
          assert Materialises(calls[1..][i - 1]);
        }
      }
    }
  }

  /** Abort restores the baseline: resetting after any run of mutations gives the handle
      that resetting before them would have given, so reads return the pre-mutation
      baseline again. */
  lemma ResetUndoesMutations<V, R, C>(n: Node<V, R>, calls: seq<Call<V, R, C>>,
                                      b: States.Behaviour<V, R, C>)
    requires forall i :: 0 <= i < |calls| ==> IsMutation(calls[i])
    ensures ResetState(Run(n, calls, b)) == ResetState(n)
    ensures GetStatus(ResetState(Run(n, calls, b))) == n.status
    ensures GetData(ResetState(Run(n, calls, b))) == n.data
  {
    MutationsKeepBaseline(n, calls, b);
  }

  /** After synchronising a handle with a live State, reads give LOADED and the data the
      live State held, whatever the status was before. */
  lemma SyncThenRead<V, R>(n: Node<V, R>)
    requires n.state.Some?
    ensures GetStatus(SyncState(n).node) == LOADED
    ensures GetData(SyncState(n).node) == n.state.value.data
  {
  }

  /** A synchronisation leaves nothing to synchronise: the next one reports an empty
      change-set and changes nothing. */
  lemma SecondSyncIsEmpty<V, R>(n: Node<V, R>)
    ensures var m := SyncState(n).node;
            SyncState(m).changes == map[] && SyncState(m).node == m
  {
  }

  /** Scheduling and then synchronising always lands on LOADED, while the data read
      back is the data read before. */
  lemma ScheduledThenSyncedIsLoaded<V, R>(n: Node<V, R>, status: int)
    ensures GetStatus(SyncState(SetStatus(n, status)).node) == LOADED
    ensures GetData(SyncState(SetStatus(n, status)).node) == GetData(n)
  {
  }

  /** A field whose value changes from `y` to `x` is reported as changed, and once
      synchronised the handle reads the new data and reports nothing further. */
  lemma ChangedFieldIsReported<V, R>(n: Node<V, R>, field: string, x: V, y: V)
    requires n.state.Some? && n.state.value.data == map[field := x]
    requires n.data == map[field := y] && x != y
    ensures SyncState(n).changes == map[field := x]
    ensures GetData(SyncState(n).node) == map[field := x]
    ensures SyncState(SyncState(n).node).changes == map[]
  {
    var c := SyncState(n).changes;
    forall v | v in n.data.Values
      ensures v == y
    {
      var k :| k in n.data && n.data[k] == v;
    }
    assert field in c;
  }

  /** Through a handle, swapping two baseline values between their fields changes the
      data the handle ends with but is reported as no change at all. */
  lemma SwappedFieldsAreNotReported<V, R>(n: Node<V, R>, a: string, b: string, x: V, y: V)
    requires a != b && x != y
    requires n.data == map[a := x, b := y]
    requires n.state.Some? && n.state.value.data == map[a := y, b := x]
    ensures SyncState(n).changes == map[]
    ensures GetData(SyncState(n).node) != n.data
  {
    SwapIsNotReported(a, b, x, y);
    assert GetData(SyncState(n).node)[a] == y;
  }
}
