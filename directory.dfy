/** The client directory `clientesMap`, the neighbourhood owner filter of the
    aggregation query, and the enrichment of the aggregated buckets
    (backend/server.js:86-116, 158-169). */
module ClientDirectory {
  import opened Records
  import opened Collections

  const UnknownAddress := "Desconocida"
  const UnknownBarrio := "Desconocido"
  const DefaultStart := "2022-01-01"
  const DefaultEnd := "2022-12-31"
  /** The `barrio` query value that means "no neighbourhood filter". */
  const AllBarrios := "todos"

  /** The directory value built from one client document: the address is
      the street and the number joined by one space. */
  function EntryOf(c: Cliente): (e: DirEntry)
    ensures e.direccion == c.calle + " " + c.numero
    ensures e.nombre == c.nombre && e.barrio == c.barrio
    ensures e.ciudad == c.ciudad && e.provincia == c.provincia
  {
    DirEntry(c.nombre, c.calle + " " + c.numero, c.barrio, c.ciudad, c.provincia)
  }

  /** The directory after the clients were stored one after the other. */
  function Directory(clientes: seq<Cliente>): map<string, DirEntry> {
    if clientes == [] then map[]
    else
      var last := clientes[|clientes| - 1];
      Directory(clientes[..|clientes| - 1])[last.externalId := EntryOf(last)]
  }

  /** Building `clientesMap` (backend/server.js:87-98). */
  method BuildDirectory(clientes: seq<Cliente>) returns (clientesMap: map<string, DirEntry>)
    ensures clientesMap == Directory(clientes)
  {
    clientesMap := map[];
    var i := 0;
    while i < |clientes|
      invariant 0 <= i <= |clientes|
      invariant clientesMap == Directory(clientes[..i])
    {
      var cliente := clientes[i];
      clientesMap := clientesMap[cliente.externalId := EntryOf(cliente)];
      assert clientes[..i + 1][..i] == clientes[..i];
      i := i + 1;
    }
    assert clientes[..i] == clientes;
  }

  /** The directory has exactly one key per distinct external id. */
  lemma {:induction false} DirectoryKeys(clientes: seq<Cliente>)
    ensures Directory(clientes).Keys == set c <- clientes :: c.externalId
    decreases |clientes|
  {
    if clientes != [] {
      var init := clientes[..|clientes| - 1];
      DirectoryKeys(init);
      assert clientes == init + [clientes[|clientes| - 1]];
    }
  }

  /** With duplicate external ids, the last client with that id wins. */
  lemma {:induction false} DirectoryLastWins(clientes: seq<Cliente>, i: nat)
    requires i < |clientes|
    requires forall j :: i < j < |clientes| ==> clientes[j].externalId != clientes[i].externalId
    ensures clientes[i].externalId in Directory(clientes)
    ensures Directory(clientes)[clientes[i].externalId] == EntryOf(clientes[i])
    decreases |clientes|
  {
    if i < |clientes| - 1 {
      var init := clientes[..|clientes| - 1];
      assert forall j :: i < j < |init| ==> init[j] == clientes[j];
      DirectoryLastWins(init, i);
    }
  }

  /** A key of the directory maps to the entry of some client with that id. */
  lemma {:induction false} DirectoryFrom(clientes: seq<Cliente>, id: string)
    requires id in Directory(clientes)
    ensures exists c :: c in clientes && c.externalId == id && Directory(clientes)[id] == EntryOf(c)
    decreases |clientes|
  {
    var init, last := clientes[..|clientes| - 1], clientes[|clientes| - 1];
    if last.externalId != id {
      DirectoryFrom(init, id);
      var c :| c in init && c.externalId == id && Directory(init)[id] == EntryOf(c);
      assert c in clientes;
    } else {
      assert last in clientes;
    }
  }

  /** The `external_id`s of the clients of one neighbourhood, in directory
      order (backend/server.js:112-114). */
  function OwnersInBarrio(clientes: seq<Cliente>, barrio: string): (ids: seq<string>)
    ensures |ids| <= |clientes|
    ensures forall id :: id in ids <==> exists c :: c in clientes && c.barrio == barrio && c.externalId == id
  {
    if clientes == [] then []
    else
      var rest := OwnersInBarrio(clientes[1..], barrio);
      assert forall c :: c in clientes <==> c == clientes[0] || c in clientes[1..];
      if clientes[0].barrio == barrio then [clientes[0].externalId] + rest else rest
  }

  /** The filter stage of the aggregation query: a date range with the
      default year 2022, and an owner list when a neighbourhood other than
      'todos' is asked for. An empty string stands for an absent parameter. */
  datatype MatchStage = MatchStage(start: string, end: string, owners: Option<seq<string>>)

  function BuildMatchStage(clientes: seq<Cliente>, fechaInicio: string, fechaFin: string, barrio: string)
    : (m: MatchStage)
    ensures m.start == (if fechaInicio == "" then DefaultStart else fechaInicio)
    ensures m.end == (if fechaFin == "" then DefaultEnd else fechaFin)
    ensures m.owners.Some? <==> barrio != "" && barrio != AllBarrios
    ensures m.owners.Some? ==> m.owners.value == OwnersInBarrio(clientes, barrio)
    ensures m.owners.Some? ==> forall id :: id in m.owners.value <==>
      exists c <- clientes :: c.barrio == barrio && c.externalId == id
  {
    MatchStage(
      if fechaInicio != "" then fechaInicio else DefaultStart,
      if fechaFin != "" then fechaFin else DefaultEnd,
      if barrio != "" && barrio != AllBarrios then Some(OwnersInBarrio(clientes, barrio)) else None)
  }

  /** JavaScript's `s || fallback` on a string. */
  function OrElse(s: string, fallback: string): string {
    if s != "" then s else fallback
  }

  /** One bucket with its address fields (backend/server.js:160-168); an
      owner missing from the directory gets the sentinels, never an error. */
  function EnrichOne(c: Bucket, clientesMap: map<string, DirEntry>): (e: Enriched)
    ensures e.bucket == c
    ensures e.direccion != "" && e.barrio != ""
    ensures c.propietarioId !in clientesMap ==>
      e.direccion == UnknownAddress && e.barrio == UnknownBarrio && e.ciudad == "" && e.provincia == ""
    ensures c.propietarioId in clientesMap ==>
      var entry := clientesMap[c.propietarioId];
      && e.direccion == OrElse(entry.direccion, UnknownAddress)
      && e.barrio == OrElse(entry.barrio, UnknownBarrio)
      && e.ciudad == entry.ciudad && e.provincia == entry.provincia
  {
    if c.propietarioId in clientesMap then
      var cliente := clientesMap[c.propietarioId];
      Enriched(c, OrElse(cliente.direccion, UnknownAddress), OrElse(cliente.barrio, UnknownBarrio),
               cliente.ciudad, cliente.provincia)
    else
      Enriched(c, UnknownAddress, UnknownBarrio, "", "")
  }

  /** The enrichment `.map` over the aggregated buckets: same length, same
      order, each bucket enriched on its own. */
  function Enrich(buckets: seq<Bucket>, clientesMap: map<string, DirEntry>): (r: seq<Enriched>)
    ensures |r| == |buckets|
    ensures forall i :: 0 <= i < |buckets| ==> r[i] == EnrichOne(buckets[i], clientesMap)
  {
    seq(|buckets|, i requires 0 <= i < |buckets| => EnrichOne(buckets[i], clientesMap))
  }

  /** Enriching against the directory built from the clients: a bucket
      takes the address of the last client with its owner id, and the
      sentinels when no client has that id. */
  lemma EnrichAgainstClients(clientes: seq<Cliente>, buckets: seq<Bucket>, k: nat, i: nat)
    requires k < |buckets| && i < |clientes|
    requires clientes[i].externalId == buckets[k].propietarioId
    requires forall j :: i < j < |clientes| ==> clientes[j].externalId != clientes[i].externalId
    ensures Enrich(buckets, Directory(clientes))[k].direccion == clientes[i].calle + " " + clientes[i].numero
    ensures Enrich(buckets, Directory(clientes))[k].barrio == OrElse(clientes[i].barrio, UnknownBarrio)
  {
    DirectoryLastWins(clientes, i);
  }

  lemma EnrichUnknownOwner(clientes: seq<Cliente>, buckets: seq<Bucket>, k: nat)
    requires k < |buckets|
    requires forall c <- clientes :: c.externalId != buckets[k].propietarioId
    ensures Enrich(buckets, Directory(clientes))[k].direccion == UnknownAddress
    ensures Enrich(buckets, Directory(clientes))[k].barrio == UnknownBarrio
  {
    DirectoryKeys(clientes);
  }

  /** With unique external ids, a bucket of an owner selected by the
      neighbourhood filter is enriched with that neighbourhood. */
  lemma FilteredOwnerBarrio(clientes: seq<Cliente>, barrio: string, b: Bucket)
    requires barrio != ""
    requires forall i, j :: 0 <= i < j < |clientes| ==> clientes[i].externalId != clientes[j].externalId
    requires b.propietarioId in OwnersInBarrio(clientes, barrio)
    ensures EnrichOne(b, Directory(clientes)).barrio == barrio
  {
    var c :| c in clientes && c.barrio == barrio && c.externalId == b.propietarioId;
    var i :| 0 <= i < |clientes| && clientes[i] == c;
    DirectoryLastWins(clientes, i);
  }
}
