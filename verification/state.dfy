/**
 The live, uncommitted view of one entity that a Node materialises on demand. Only the
 State's shape and the operations a Node calls on it are modelled: its status, its field
 data and its relation table. How the State merges data, keeps its listener registry and
 delivers produced values is not modelled; those operations are supplied as a
 `Behaviour`, so every result about a Node holds for any State implementation.
 */
module States {
  import opened Fields

  /** The live status, field data and relation references of one entity. */
  datatype State<V, R> = State(status: int, data: Data<V>, relations: map<string, R>)

  /** A fresh State built from a status and a field mapping, with no relations yet. */
  function Create<V, R>(status: int, data: Data<V>): (st: State<V, R>)
    ensures st.status == status && st.data == data
    ensures st.relations == map[]
  {
    State(status, data, map[])
  }

  /** The State's own `setStatus`: the status it reports becomes `status`. */
  function SetStatus<V, R>(st: State<V, R>, status: int): (r: State<V, R>)
    ensures r.status == status
    ensures r.data == st.data && r.relations == st.relations
  {
    st.(status := status)
  }

  /** The State operations whose behaviour is left open: `setData` (merge or replace),
      `listen` (a consumer of type `C` awaiting a key) and `register` (producing a
      value under a key). Each returns the State afterwards. */
  datatype Behaviour<!V, !R, !C> = Behaviour(
    setData: (State<V, R>, Data<V>) -> State<V, R>,
    listen: (State<V, R>, string, C, string, bool, int) -> State<V, R>,
    register: (State<V, R>, string, V, bool, int) -> State<V, R>)
}
