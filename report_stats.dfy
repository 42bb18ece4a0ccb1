/** The report page's status breakdowns, its category histogram and the
    rounded percentages it shows next to them. */
module ReportStats {
  import opened Seqs
  import opened Tally
  import opened Domain
  import opened Ranking

  datatype ImplementoStats = ImplementoStats(total: nat, disponibles: nat, prestados: nat, mantenimiento: nat)

  datatype PrestamoStats = PrestamoStats(total: nat, activos: nat, devueltos: nat, retrasados: nat)

  function HasImplementoEstado(estado: string): Implemento -> bool {
    (imp: Implemento) => imp.estado == estado
  }

  function HasPrestamoEstado(estado: string): Prestamo -> bool {
    (p: Prestamo) => p.estado == estado
  }

  /** `statsImplementos` */
  function StatsImplementos(implementos: seq<Implemento>): ImplementoStats {
    ImplementoStats(
      |implementos|,
      Count(implementos, HasImplementoEstado(DISPONIBLE)),
      Count(implementos, HasImplementoEstado(PRESTADO)),
      Count(implementos, HasImplementoEstado(MANTENIMIENTO)))
  }

  /** `statsPrestamos` */
  function StatsPrestamos(prestamos: seq<Prestamo>): PrestamoStats {
    PrestamoStats(
      |prestamos|,
      Count(prestamos, HasPrestamoEstado(ACTIVO)),
      Count(prestamos, HasPrestamoEstado(DEVUELTO)),
      Count(prestamos, HasPrestamoEstado(RETRASADO)))
  }

  /** Each equipment count is at most the total; when every item carries one
      of the three declared states, the three counts add up to the total. */
  lemma StatsImplementosPartition(implementos: seq<Implemento>)
    ensures var st := StatsImplementos(implementos);
      st.disponibles <= st.total && st.prestados <= st.total && st.mantenimiento <= st.total
    ensures (forall i :: 0 <= i < |implementos| ==> IsImplementoEstado(implementos[i].estado)) ==>
      var st := StatsImplementos(implementos);
      st.disponibles + st.prestados + st.mantenimiento == st.total
  {
    if forall i :: 0 <= i < |implementos| ==> IsImplementoEstado(implementos[i].estado) {
      CountPartition(implementos, HasImplementoEstado(DISPONIBLE), HasImplementoEstado(PRESTADO), HasImplementoEstado(MANTENIMIENTO));
    }
  }

  /** The same for loans and their three declared states. */
  lemma StatsPrestamosPartition(prestamos: seq<Prestamo>)
    ensures var st := StatsPrestamos(prestamos);
      st.activos <= st.total && st.devueltos <= st.total && st.retrasados <= st.total
    ensures (forall i :: 0 <= i < |prestamos| ==> IsPrestamoEstado(prestamos[i].estado)) ==>
      var st := StatsPrestamos(prestamos);
      st.activos + st.devueltos + st.retrasados == st.total
  {
    if forall i :: 0 <= i < |prestamos| ==> IsPrestamoEstado(prestamos[i].estado) {
      CountPartition(prestamos, HasPrestamoEstado(ACTIVO), HasPrestamoEstado(DEVUELTO), HasPrestamoEstado(RETRASADO));
    }
  }

  /** `total > 0 ? Math.round((count / total) * 100) : 0`, in integers:
      100 * count / total rounded to the nearest integer, halves upwards. */
  function Percent(count: nat, total: nat): (r: nat)
    ensures total == 0 ==> r == 0
    ensures total > 0 ==> 2 * total * r <= 200 * count + total < 2 * total * (r + 1)
  {
    if total > 0 then (200 * count + total) / (2 * total) else 0
  }

  lemma MulMonotone(a: nat, b: nat, k: nat)
    requires a <= b
    ensures a * k <= b * k
  {}

  /** A guarded percentage of a part of its total lies between 0 and 100;
      the whole shows 100 and an empty part shows 0. */
  lemma PercentBounds(count: nat, total: nat)
    requires count <= total
    ensures Percent(count, total) <= 100
    ensures total > 0 && count == total ==> Percent(count, total) == 100
    ensures count == 0 ==> Percent(count, total) == 0
  {
    if total > 0 {
      var r := Percent(count, total);
      if r > 100 {
        MulMonotone(101, r, 2 * total);
      }
      if count == total && r < 100 {
        MulMonotone(r + 1, 100, 2 * total);
      }
      if count == 0 && r > 0 {
        MulMonotone(1, r, 2 * total);
      }
    }
  }

  /** The categories of the items, in list order. */
  function Categorias(implementos: seq<Implemento>): (r: seq<string>)
    ensures |r| == |implementos|
  {
    seq(|implementos|, i requires 0 <= i < |implementos| => implementos[i].categoria)
  }

  /** `statsPorCategoria`: the reduce that counts items per category. */
  method StatsPorCategoria(implementos: seq<Implemento>) returns (acc: seq<(string, nat)>)
    ensures acc == TallyOf(Categorias(implementos))
  {
    acc := [];
    for i := 0 to |implementos|
      invariant acc == TallyOf(Categorias(implementos[..i]))
    {
      assert Categorias(implementos[..i + 1])[..i] == Categorias(implementos[..i]);
      acc := Bump(acc, implementos[i].categoria);
    }
    assert implementos[..|implementos|] == implementos;
  }

  /** The category histogram: one entry per category present and no other,
      every count at least 1 and equal to the number of items in that
      category, and the counts add up to the number of items. */
  lemma CategoryHistogramSpec(implementos: seq<Implemento>)
    ensures var h := TallyOf(Categorias(implementos));
      && DistinctKeys(h)
      && (forall c :: c in KeysOf(h) <==> exists i :: 0 <= i < |implementos| && implementos[i].categoria == c)
      && (forall i :: 0 <= i < |h| ==> h[i].1 >= 1 && h[i].1 == multiset(Categorias(implementos))[h[i].0])
      && Total(h) == |implementos|
  {
    var cats := Categorias(implementos);
    var h := TallyOf(cats);
    TallyOfSpec(cats);
    forall i | 0 <= i < |h| ensures h[i].1 == multiset(cats)[h[i].0] {
      CountOfEntry(h, i);
    }
    forall c ensures c in KeysOf(h) <==> exists i :: 0 <= i < |implementos| && implementos[i].categoria == c {
      if c in cats {
        var i :| 0 <= i < |cats| && cats[i] == c;
        assert implementos[i].categoria == c;
      }
      if exists i :: 0 <= i < |implementos| && implementos[i].categoria == c {
        var i :| 0 <= i < |implementos| && implementos[i].categoria == c;
        assert cats[i] == c;
      }
    }
  }

  /** The category chart divides by the number of items without a guard; it
      only does so when some category exists, and then there are items. */
  lemma CategoryPercentDefined(implementos: seq<Implemento>)
    requires TallyOf(Categorias(implementos)) != []
    ensures |implementos| > 0
  {
    CategoryHistogramSpec(implementos);
    NonEmptyTallyHasPositiveTotal(TallyOf(Categorias(implementos)));
  }

  function Cantidad(e: (string, nat)): nat { e.1 }

  /** `Object.entries(statsPorCategoria).sort(([, a], [, b]) => b - a)`: the
      rows of the category chart. */
  function FilasCategoria(implementos: seq<Implemento>): seq<(string, nat)> {
    SortDesc(TallyOf(Categorias(implementos)), Cantidad)
  }

  /** The chart lists every category of the histogram once, with its count,
      from the most to the least numerous, and each row's rounded percentage
      of all items is at most 100. */
  lemma FilasCategoriaSpec(implementos: seq<Implemento>)
    ensures multiset(FilasCategoria(implementos)) == multiset(TallyOf(Categorias(implementos)))
    ensures Descending(FilasCategoria(implementos), Cantidad)
    ensures forall i :: 0 <= i < |FilasCategoria(implementos)| ==>
      Percent(FilasCategoria(implementos)[i].1, |implementos|) <= 100
  {
    var h := TallyOf(Categorias(implementos));
    var rows := FilasCategoria(implementos);
    SortDescSpec(h, Cantidad);
    TallyOfSpec(Categorias(implementos));
    forall i | 0 <= i < |rows| ensures Percent(rows[i].1, |implementos|) <= 100 {
      assert rows[i] in multiset(h);
      var k :| 0 <= k < |h| && h[k] == rows[i];
      TallyEntryBound(h, k);
      PercentBounds(rows[i].1, |implementos|);
    }
  }
}
