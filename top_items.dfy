/** The report page's "most borrowed equipment" ranking: loans are counted
    per equipment id in an object keyed by that id, its values are sorted by
    count and the first five are shown. */
module TopItems {
  import opened Wrappers
  import opened Domain
  import opened Ranking
  import opened Seqs

  /** One value of the per-equipment object. The id is the object's key. */
  datatype ItemCount = ItemCount(implementoId: nat, nombre: string, cantidad: nat)

  /** How many top entries the report shows. */
  const TOP_LIMIT := 5

  /** An integer-keyed object enumerates its values in increasing key order,
      so the accumulator is kept sorted by id. */
  ghost predicate IdsAscending(acc: seq<ItemCount>) {
    forall i, j :: 0 <= i < j < |acc| ==> acc[i].implementoId < acc[j].implementoId
  }

  /** The entry stored under `id`, if any. */
  function Find(acc: seq<ItemCount>, id: nat): (r: Option<ItemCount>)
    ensures r.Some? ==> r.value in acc && r.value.implementoId == id
  {
    if acc == [] then None
    else if acc[0].implementoId == id then Some(acc[0])
    else Find(acc[1..], id)
  }

  /** `acc[implementoId]?.cantidad || 0` */
  function CantidadOf(acc: seq<ItemCount>, id: nat): nat {
    match Find(acc, id)
    case None => 0
    case Some(e) => e.cantidad
  }

  /** One step of the reduce: the entry under `id` gets the loan's equipment
      name and one more loan. */
  function Record(acc: seq<ItemCount>, id: nat, nombre: string): (r: seq<ItemCount>)
    ensures |r| == |acc| || |r| == |acc| + 1
  {
    if acc == [] then [ItemCount(id, nombre, 1)]
    else if acc[0].implementoId == id then [ItemCount(id, nombre, acc[0].cantidad + 1)] + acc[1..]
    else if id < acc[0].implementoId then [ItemCount(id, nombre, 1)] + acc
    else [acc[0]] + Record(acc[1..], id, nombre)
  }

  /** The object after the reduce over all of `prestamos`. */
  function PerItem(prestamos: seq<Prestamo>): seq<ItemCount> {
    if prestamos == [] then []
    else
      var last := prestamos[|prestamos| - 1];
      Record(PerItem(prestamos[..|prestamos| - 1]), last.implementoId, last.implemento.nombre)
  }

  /** How many of the loans are of equipment `id`. */
  function Prestamos(prestamos: seq<Prestamo>, id: nat): nat {
    if prestamos == [] then 0
    else Prestamos(prestamos[..|prestamos| - 1], id) + (if prestamos[|prestamos| - 1].implementoId == id then 1 else 0)
  }

  /** The equipment name carried by the last loan of equipment `id`. */
  function LastNombre(prestamos: seq<Prestamo>, id: nat): string {
    if prestamos == [] then ""
    else if prestamos[|prestamos| - 1].implementoId == id then prestamos[|prestamos| - 1].implemento.nombre
    else LastNombre(prestamos[..|prestamos| - 1], id)
  }

  function SumCantidad(acc: seq<ItemCount>): nat {
    if acc == [] then 0 else acc[0].cantidad + SumCantidad(acc[1..])
  }

  lemma {:induction false} FindBelowFirst(acc: seq<ItemCount>, id: nat)
    requires IdsAscending(acc) && acc != [] && id < acc[0].implementoId
    ensures Find(acc, id) == None
  {
    if |acc| > 1 {
      FindBelowFirst(acc[1..], id);
    }
  }

  /** An entry of a sorted accumulator is what lookup by its id finds. */
  lemma {:induction false} FindEntry(acc: seq<ItemCount>, i: nat)
    requires IdsAscending(acc) && i < |acc|
    ensures Find(acc, acc[i].implementoId) == Some(acc[i])
  {
    if i > 0 {
      FindEntry(acc[1..], i - 1);
    }
  }

  /** Recording a loan keeps the ids sorted. */
  lemma {:induction false} RecordAscending(acc: seq<ItemCount>, id: nat, nombre: string)
    requires IdsAscending(acc)
    ensures IdsAscending(Record(acc, id, nombre))
  {
    if acc == [] {
    } else if acc[0].implementoId == id {
      RecordAscendingAt(acc, id, nombre);
    } else if id < acc[0].implementoId {
      RecordAscendingFront(acc, id, nombre);
    } else {
      AscendingTail(acc);
      RecordAscending(acc[1..], id, nombre);
      RecordAscendingAfter(acc, id, nombre);
    }
  }

  /** The first entry is the one under `id`: only its count changes. */
  lemma RecordAscendingAt(acc: seq<ItemCount>, id: nat, nombre: string)
    requires IdsAscending(acc) && acc != [] && acc[0].implementoId == id
    ensures IdsAscending(Record(acc, id, nombre))
  {
    var r := Record(acc, id, nombre);
    forall i, j | 0 <= i < j < |r| ensures r[i].implementoId < r[j].implementoId {
      assert r[j] == acc[j];
      if i > 0 { assert r[i] == acc[i]; }
    }
  }

  /** `id` is below every stored id: the new entry goes in front. */
  lemma RecordAscendingFront(acc: seq<ItemCount>, id: nat, nombre: string)
    requires IdsAscending(acc) && acc != [] && id < acc[0].implementoId
    ensures IdsAscending(Record(acc, id, nombre))
  {
    var r := Record(acc, id, nombre);
    forall i, j | 0 <= i < j < |r| ensures r[i].implementoId < r[j].implementoId {
      assert r[j] == acc[j - 1];
      if i > 0 { assert r[i] == acc[i - 1]; }
    }
  }

  /** `id` is above the first stored id: the first entry stays in front of
      the sorted rest. */
  lemma RecordAscendingAfter(acc: seq<ItemCount>, id: nat, nombre: string)
    requires IdsAscending(acc) && acc != [] && acc[0].implementoId < id
    requires IdsAscending(Record(acc[1..], id, nombre))
    ensures IdsAscending(Record(acc, id, nombre))
  {
    var r := Record(acc, id, nombre);
    var rest := Record(acc[1..], id, nombre);
    assert r == [acc[0]] + rest;
    forall k | 0 <= k < |acc[1..]| ensures acc[1..][k].implementoId > acc[0].implementoId {
      assert acc[1..][k] == acc[k + 1];
    }
    RecordAbove(acc[1..], id, nombre, acc[0].implementoId);
    forall i, j | 0 <= i < j < |r| ensures r[i].implementoId < r[j].implementoId {
      assert r[j] == rest[j - 1];
      if i > 0 {
        assert r[i] == rest[i - 1];
      }
    }
  }

  /** Recording an id above a bound that every stored id is above keeps every
      id above that bound. */
  lemma {:induction false} RecordAbove(acc: seq<ItemCount>, id: nat, nombre: string, b: int)
    requires b < id && forall k :: 0 <= k < |acc| ==> acc[k].implementoId > b
    ensures forall k :: 0 <= k < |Record(acc, id, nombre)| ==> Record(acc, id, nombre)[k].implementoId > b
  {
    var r := Record(acc, id, nombre);
    if acc == [] {
    } else if acc[0].implementoId == id {
      forall k | 0 < k < |r| ensures r[k].implementoId > b {
        assert r[k] == acc[k];
      }
    } else if id < acc[0].implementoId {
      forall k | 0 < k < |r| ensures r[k].implementoId > b {
        assert r[k] == acc[k - 1];
      }
    } else {
      forall k | 0 <= k < |acc[1..]| ensures acc[1..][k].implementoId > b {
        assert acc[1..][k] == acc[k + 1];
      }
      RecordAbove(acc[1..], id, nombre, b);
      forall k | 0 < k < |r| ensures r[k].implementoId > b {
        assert r[k] == Record(acc[1..], id, nombre)[k - 1];
      }
    }
  }

  /** After recording a loan, the entry under `id` carries the loan's name
      and one more loan; every other entry is as it was. */
  lemma {:induction false} RecordFind(acc: seq<ItemCount>, id: nat, nombre: string, k: nat)
    requires IdsAscending(acc)
    ensures Find(Record(acc, id, nombre), k) ==
      (if k == id then Some(ItemCount(id, nombre, CantidadOf(acc, id) + 1)) else Find(acc, k))
  {
    var r := Record(acc, id, nombre);
    if acc == [] {
      assert r[1..] == [];
    } else if acc[0].implementoId == id {
      assert r[1..] == acc[1..];
      assert CantidadOf(acc, id) == acc[0].cantidad;
    } else if id < acc[0].implementoId {
      FindBelowFirst(acc, id);
      assert r[1..] == acc;
    } else {
      AscendingTail(acc);
      RecordFind(acc[1..], id, nombre, k);
      assert r[1..] == Record(acc[1..], id, nombre);
      assert CantidadOf(acc, id) == CantidadOf(acc[1..], id);
    }
  }

  lemma AscendingTail(acc: seq<ItemCount>)
    requires IdsAscending(acc) && acc != []
    ensures IdsAscending(acc[1..])
  {
    forall i, j | 0 <= i < j < |acc[1..]| ensures acc[1..][i].implementoId < acc[1..][j].implementoId {
      assert acc[1..][i] == acc[i + 1] && acc[1..][j] == acc[j + 1];
    }
  }

  /** Recording a loan adds one to the sum of the counts. */
  lemma {:induction false} RecordSum(acc: seq<ItemCount>, id: nat, nombre: string)
    ensures SumCantidad(Record(acc, id, nombre)) == SumCantidad(acc) + 1
  {
    var r := Record(acc, id, nombre);
    if acc != [] {
      if acc[0].implementoId == id {
        assert r[1..] == acc[1..];
      } else if id < acc[0].implementoId {
        assert r[1..] == acc;
      } else {
        RecordSum(acc[1..], id, nombre);
        assert r[1..] == Record(acc[1..], id, nombre);
      }
    }
  }

  /** The per-equipment object keeps its ids sorted. */
  lemma {:induction false} PerItemAscending(prestamos: seq<Prestamo>)
    ensures IdsAscending(PerItem(prestamos))
  {
    if prestamos != [] {
      var last := prestamos[|prestamos| - 1];
      PerItemAscending(prestamos[..|prestamos| - 1]);
      RecordAscending(PerItem(prestamos[..|prestamos| - 1]), last.implementoId, last.implemento.nombre);
    }
  }

  /** The counts of the per-equipment object add up to the number of loans. */
  lemma {:induction false} PerItemSum(prestamos: seq<Prestamo>)
    ensures SumCantidad(PerItem(prestamos)) == |prestamos|
  {
    if prestamos != [] {
      var last := prestamos[|prestamos| - 1];
      PerItemSum(prestamos[..|prestamos| - 1]);
      RecordSum(PerItem(prestamos[..|prestamos| - 1]), last.implementoId, last.implemento.nombre);
    }
  }

  /** One more loan changes only the entry under its equipment id. */
  lemma PerItemStep(prestamos: seq<Prestamo>, id: nat)
    requires prestamos != []
    ensures var prefix := prestamos[..|prestamos| - 1];
      var last := prestamos[|prestamos| - 1];
      Find(PerItem(prestamos), id) ==
        if id == last.implementoId then Some(ItemCount(id, last.implemento.nombre, CantidadOf(PerItem(prefix), id) + 1))
        else Find(PerItem(prefix), id)
  {
    var prefix := prestamos[..|prestamos| - 1];
    var last := prestamos[|prestamos| - 1];
    PerItemAscending(prefix);
    RecordFind(PerItem(prefix), last.implementoId, last.implemento.nombre, id);
  }

  /** Equipment `id` has an entry iff some loan is of it, and that entry
      counts those loans and carries the name of the last of them. */
  lemma {:induction false} PerItemFind(prestamos: seq<Prestamo>, id: nat)
    ensures Find(PerItem(prestamos), id) ==
      if Prestamos(prestamos, id) == 0 then None
      else Some(ItemCount(id, LastNombre(prestamos, id), Prestamos(prestamos, id)))
  {
    if prestamos != [] {
      var prefix := prestamos[..|prestamos| - 1];
      var last := prestamos[|prestamos| - 1];
      var acc := PerItem(prefix);
      PerItemFind(prefix, id);
      PerItemStep(prestamos, id);
      if id == last.implementoId {
        assert CantidadOf(acc, id) == Prestamos(prefix, id);
        assert Prestamos(prestamos, id) == Prestamos(prefix, id) + 1;
        assert LastNombre(prestamos, id) == last.implemento.nombre;
        assert Find(PerItem(prestamos), id) == Some(ItemCount(id, LastNombre(prestamos, id), Prestamos(prestamos, id)));
      } else {
        assert Prestamos(prestamos, id) == Prestamos(prefix, id);
        assert LastNombre(prestamos, id) == LastNombre(prefix, id);
        assert Find(PerItem(prestamos), id) == Find(acc, id);
      }
    }
  }

  /** The per-equipment object describes the loans exactly: its ids are
      sorted, equipment `id` has an entry iff some loan is of it, that entry
      counts those loans and carries the name of the last of them, and the
      counts add up to the number of loans. */
  lemma PerItemSpec(prestamos: seq<Prestamo>)
    ensures IdsAscending(PerItem(prestamos))
    ensures forall id :: (Find(PerItem(prestamos), id) ==
      if Prestamos(prestamos, id) == 0 then None
      else Some(ItemCount(id, LastNombre(prestamos, id), Prestamos(prestamos, id))))
    ensures SumCantidad(PerItem(prestamos)) == |prestamos|
  {
    PerItemAscending(prestamos);
    PerItemSum(prestamos);
    forall id ensures Find(PerItem(prestamos), id) ==
      (if Prestamos(prestamos, id) == 0 then None
       else Some(ItemCount(id, LastNombre(prestamos, id), Prestamos(prestamos, id))))
    {
      PerItemFind(prestamos, id);
    }
  }

  /** Every entry of the object counts at least one loan and agrees with
      `Prestamos` and `LastNombre`. */
  lemma PerItemEntries(prestamos: seq<Prestamo>)
    ensures forall e :: e in PerItem(prestamos) ==>
      e.cantidad == Prestamos(prestamos, e.implementoId) >= 1 && e.nombre == LastNombre(prestamos, e.implementoId)
  {
    var acc := PerItem(prestamos);
    PerItemSpec(prestamos);
    forall e | e in acc
      ensures e.cantidad == Prestamos(prestamos, e.implementoId) >= 1 && e.nombre == LastNombre(prestamos, e.implementoId)
    {
      var i :| 0 <= i < |acc| && acc[i] == e;
      FindEntry(acc, i);
    }
  }

  /** `implementosMasPrestados`: the reduce over the loans, in list order. */
  method ImplementosMasPrestados(prestamos: seq<Prestamo>) returns (acc: seq<ItemCount>)
    ensures acc == PerItem(prestamos)
  {
    acc := [];
    for i := 0 to |prestamos|
      invariant acc == PerItem(prestamos[..i])
    {
      assert prestamos[..i + 1][..i] == prestamos[..i];
      acc := Record(acc, prestamos[i].implementoId, prestamos[i].implemento.nombre);
    }
    assert prestamos[..|prestamos|] == prestamos;
  }

  function Cantidad(e: ItemCount): nat { e.cantidad }

  function Id(e: ItemCount): int { e.implementoId }

  function Min(a: nat, b: nat): nat { if a <= b then a else b }

  /** `topImplementos`: the object's values sorted by count, greatest first,
      cut to the first five. */
  function TopImplementos(prestamos: seq<Prestamo>): seq<ItemCount> {
    var sorted := SortDesc(PerItem(prestamos), Cantidad);
    sorted[..Min(TOP_LIMIT, |sorted|)]
  }

  /** The ranking shows `min(5, number of borrowed items)` entries, ordered by
      count and, between equal counts, by increasing id; every item left out
      ranks after every item shown, and each shown entry reports its item's
      loans and latest name. */
  lemma {:induction false} TopImplementosSpec(prestamos: seq<Prestamo>)
    ensures var top := TopImplementos(prestamos);
      |top| == Min(TOP_LIMIT, |PerItem(prestamos)|)
    ensures Ranked(TopImplementos(prestamos), Cantidad, Id)
    ensures var sorted := SortDesc(PerItem(prestamos), Cantidad);
      && multiset(sorted) == multiset(PerItem(prestamos))
      && sorted[..|TopImplementos(prestamos)|] == TopImplementos(prestamos)
      && forall i, j :: 0 <= i < |TopImplementos(prestamos)| <= j < |sorted| ==> Before(sorted[i], sorted[j], Cantidad, Id)
    ensures forall e :: e in TopImplementos(prestamos) ==>
      e.cantidad == Prestamos(prestamos, e.implementoId) >= 1 && e.nombre == LastNombre(prestamos, e.implementoId)
  {
    SortedPerItem(prestamos);
    TopEntries(prestamos);
  }

  /** The sorted values are the object's values, ranked by count and then by
      increasing id. */
  lemma SortedPerItem(prestamos: seq<Prestamo>)
    ensures multiset(SortDesc(PerItem(prestamos), Cantidad)) == multiset(PerItem(prestamos))
    ensures Ranked(SortDesc(PerItem(prestamos), Cantidad), Cantidad, Id)
  {
    var acc := PerItem(prestamos);
    PerItemAscending(prestamos);
    assert KeyAscending(acc, Id);
    SortDescStable(acc, Cantidad, Id);
    SortDescSpec(acc, Cantidad);
  }

  /** Every shown entry is one of the object's entries. */
  lemma TopEntries(prestamos: seq<Prestamo>)
    requires multiset(SortDesc(PerItem(prestamos), Cantidad)) == multiset(PerItem(prestamos))
    ensures forall e :: e in TopImplementos(prestamos) ==>
      e.cantidad == Prestamos(prestamos, e.implementoId) >= 1 && e.nombre == LastNombre(prestamos, e.implementoId)
  {
    var sorted := SortDesc(PerItem(prestamos), Cantidad);
    PerItemEntries(prestamos);
    forall e | e in TopImplementos(prestamos)
      ensures e.cantidad == Prestamos(prestamos, e.implementoId) >= 1 && e.nombre == LastNombre(prestamos, e.implementoId)
    {
      assert e in multiset(sorted);
    }
  }

  /** `Math.max(...topImplementos.map(i => i.cantidad), 1)`, the scale of the
      ranking's bars, is the count of the first entry of a non-empty ranking,
      so that entry's bar is full and no bar overflows. */
  lemma MaxCantidadOfRanking(prestamos: seq<Prestamo>)
    requires TopImplementos(prestamos) != []
    ensures MaxOr1(Map(TopImplementos(prestamos), (c: ItemCount) => c.cantidad)) == TopImplementos(prestamos)[0].cantidad
  {
    var top := TopImplementos(prestamos);
    TopImplementosSpec(prestamos);
    assert top[0] in TopImplementos(prestamos);
    forall i | 0 < i < |top| ensures top[i].cantidad <= top[0].cantidad {
      assert Before(top[0], top[i], Cantidad, Id);
    }
  }
}
