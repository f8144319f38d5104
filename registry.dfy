/** The fixed table of provisioned accounts and their credit limits, only ever read. */
module Registry {
  import opened GoTypes
  import opened Wrappers

  /** Account id to credit limit, in cents. */
  const Clientes: map<int64, int64> :=
    map[1 := 100000, 2 := 80000, 3 := 1000000, 4 := 10000000, 5 := 500000]

  /** The `limite, exists := clientes[clientId]` lookup both handlers start with. */
  function LimiteOf(id: int64): (r: Option<int64>)
    ensures r.Some? <==> 1 <= id <= 5
    ensures r.Some? ==> 80000 <= r.value <= 10000000
  {
    if id in Clientes then Some(Clientes[id]) else None
  }

  /** The registry holds exactly the ids 1 to 5, each with the provisioned positive limit. */
  lemma RegistryContents()
    ensures Clientes.Keys == {1, 2, 3, 4, 5}
    ensures forall id :: id in Clientes ==> Clientes[id] > 0
    ensures LimiteOf(1) == Some(100000) && LimiteOf(2) == Some(80000) && LimiteOf(3) == Some(1000000)
    ensures LimiteOf(4) == Some(10000000) && LimiteOf(5) == Some(500000)
  {
  }
}
