/** The report page's "loans per month" chart: each loan's date becomes a
    `YYYY-MM` key, loans are counted per key, the keys are sorted as strings,
    the last six are kept and each becomes a bar labelled with the month's
    short Spanish name. */
module MonthlyLoans {
  import opened Wrappers
  import opened Text
  import opened Seqs
  import opened Tally
  import opened Domain

  /** How many months the chart shows. */
  const MONTHS_SHOWN := 6

  const NOMBRES_MESES: seq<string> :=
    ["Ene", "Feb", "Mar", "Abr", "May", "Jun", "Jul", "Ago", "Sep", "Oct", "Nov", "Dic"]

  /** `${fecha.getFullYear()}-${String(fecha.getMonth() + 1).padStart(2, '0')}`;
      an invalid date prints `NaN` in both places. */
  function MesKey(fecha: Fecha): string {
    match fecha
    case Fecha(year, monthIndex) => IntToString(year) + "-" + Pad2(IntToString(monthIndex + 1))
    case InvalidDate => "NaN-NaN"
  }

  /** The key of every loan, in list order. */
  function MesKeys(prestamos: seq<Prestamo>): (r: seq<string>)
    ensures |r| == |prestamos|
  {
    seq(|prestamos|, i requires 0 <= i < |prestamos| => MesKey(prestamos[i].fechaPrestamo))
  }

  /** `prestamosPorMes`: the reduce that counts loans per key. */
  method PrestamosPorMes(prestamos: seq<Prestamo>) returns (acc: seq<(string, nat)>)
    ensures acc == TallyOf(MesKeys(prestamos))
  {
    acc := [];
    for i := 0 to |prestamos|
      invariant acc == TallyOf(MesKeys(prestamos[..i]))
    {
      assert MesKeys(prestamos[..i + 1])[..i] == MesKeys(prestamos[..i]);
      acc := Bump(acc, MesKey(prestamos[i].fechaPrestamo));
    }
    assert prestamos[..|prestamos|] == prestamos;
  }

  // ---------------------------------------------------------------------
  // `.sort()` on the keys: string order, smallest first

  ghost predicate Distinct(s: seq<string>) {
    forall i, j :: 0 <= i < j < |s| ==> s[i] != s[j]
  }

  ghost predicate StrictlyAscending(s: seq<string>) {
    forall i, j :: 0 <= i < j < |s| ==> LexLess(s[i], s[j])
  }

  function InsertLex(x: string, t: seq<string>): (r: seq<string>)
    ensures |r| == |t| + 1
  {
    if t == [] || LexLess(x, t[0]) then [x] + t else [t[0]] + InsertLex(x, t[1..])
  }

  function SortLex(s: seq<string>): (r: seq<string>)
    ensures |r| == |s|
  {
    if s == [] then [] else InsertLex(s[0], SortLex(s[1..]))
  }

  lemma {:induction false} InsertLexMultiset(x: string, t: seq<string>)
    ensures multiset(InsertLex(x, t)) == multiset(t) + multiset{x}
  {
    if t != [] && !LexLess(x, t[0]) {
      InsertLexMultiset(x, t[1..]);
      assert t == [t[0]] + t[1..];
    }
  }

  /** Inserting a key above a bound that every key is above keeps every key
      above it. */
  lemma {:induction false} InsertLexAbove(x: string, t: seq<string>, b: string)
    requires LexLess(b, x) && forall k :: 0 <= k < |t| ==> LexLess(b, t[k])
    ensures forall k :: 0 <= k < |InsertLex(x, t)| ==> LexLess(b, InsertLex(x, t)[k])
  {
    var r := InsertLex(x, t);
    if t == [] || LexLess(x, t[0]) {
      forall k | 0 < k < |r| ensures LexLess(b, r[k]) {
        assert r[k] == t[k - 1];
      }
    } else {
      forall k | 0 <= k < |t[1..]| ensures LexLess(b, t[1..][k]) {
        assert t[1..][k] == t[k + 1];
      }
      InsertLexAbove(x, t[1..], b);
      forall k | 0 < k < |r| ensures LexLess(b, r[k]) {
        assert r[k] == InsertLex(x, t[1..])[k - 1];
      }
    }
  }

  lemma {:induction false} InsertLexAscending(x: string, t: seq<string>)
    requires StrictlyAscending(t) && x !in t
    ensures StrictlyAscending(InsertLex(x, t))
  {
    var r := InsertLex(x, t);
    if t == [] {
    } else if LexLess(x, t[0]) {
      forall j | 0 < j < |t| ensures LexLess(x, t[j]) {
        LexLessTransitive(x, t[0], t[j]);
      }
      forall i, j | 0 <= i < j < |r| ensures LexLess(r[i], r[j]) {
        assert r[j] == t[j - 1];
        if i > 0 {
          assert r[i] == t[i - 1];
        }
      }
    } else {
      var rest := InsertLex(x, t[1..]);
      assert x != t[0];
      LexLessTotal(x, t[0]);
      forall k | 0 <= k < |t[1..]| ensures LexLess(t[0], t[1..][k]) {
        assert t[1..][k] == t[k + 1];
      }
      assert StrictlyAscending(t[1..]) by {
        forall i, j | 0 <= i < j < |t[1..]| ensures LexLess(t[1..][i], t[1..][j]) {
          assert t[1..][i] == t[i + 1] && t[1..][j] == t[j + 1];
        }
      }
      InsertLexAscending(x, t[1..]);
      InsertLexAbove(x, t[1..], t[0]);
      forall i, j | 0 <= i < j < |r| ensures LexLess(r[i], r[j]) {
        assert r[j] == rest[j - 1];
        if i > 0 {
          assert r[i] == rest[i - 1];
        }
      }
    }
  }

  /** Sorting keeps the keys. */
  lemma {:induction false} SortLexMultiset(s: seq<string>)
    ensures multiset(SortLex(s)) == multiset(s)
  {
    if s != [] {
      SortLexMultiset(s[1..]);
      InsertLexMultiset(s[0], SortLex(s[1..]));
      assert s == [s[0]] + s[1..];
    }
  }

  /** Sorting distinct keys orders them strictly. */
  lemma {:induction false} SortLexAscending(s: seq<string>)
    requires Distinct(s)
    ensures StrictlyAscending(SortLex(s))
  {
    if s != [] {
      assert Distinct(s[1..]) by {
        forall i, j | 0 <= i < j < |s[1..]| ensures s[1..][i] != s[1..][j] {
          assert s[1..][i] == s[i + 1] && s[1..][j] == s[j + 1];
        }
      }
      SortLexAscending(s[1..]);
      SortLexMultiset(s[1..]);
      assert s[0] !in s[1..];
      assert s[0] !in multiset(SortLex(s[1..]));
      InsertLexAscending(s[0], SortLex(s[1..]));
    }
  }

  /** Sorting keeps the keys and, when they are distinct, orders them
      strictly. */
  lemma {:induction false} SortLexSpec(s: seq<string>)
    ensures multiset(SortLex(s)) == multiset(s)
    ensures Distinct(s) ==> StrictlyAscending(SortLex(s))
  {
    SortLexMultiset(s);
    if Distinct(s) {
      SortLexAscending(s);
    }
  }

  function Min(a: nat, b: nat): nat { if a <= b then a else b }

  /** `.slice(-6)` */
  function LastSix(s: seq<string>): (r: seq<string>)
    ensures |r| == Min(MONTHS_SHOWN, |s|)
  {
    s[|s| - Min(MONTHS_SHOWN, |s|)..]
  }

  /** The keys the chart shows, oldest first. */
  function MesesMostrados(prestamos: seq<Prestamo>): seq<string> {
    LastSix(SortLex(KeysOf(TallyOf(MesKeys(prestamos)))))
  }

  // ---------------------------------------------------------------------
  // Bars

  /** `nombresMeses[parseInt(mesNum) - 1]` where `mesNum` is the second
      `-`-separated piece of the key; `None` stands for `undefined`. */
  function MesLabel(key: string): (r: Option<string>)
    ensures r.Some? ==> r.value in NOMBRES_MESES
  {
    var parts := Split(key, '-');
    if |parts| < 2 then None
    else match ParseInt(parts[1])
      case Some(n) => if 1 <= n <= 12 then Some(NOMBRES_MESES[n - 1]) else None
      case None => None
  }

  datatype MesBar = MesBar(mes: Option<string>, cantidad: nat)

  /** `meses`: one bar per shown key with the number of loans under it. */
  function Meses(prestamos: seq<Prestamo>): (r: seq<MesBar>)
    ensures |r| == |MesesMostrados(prestamos)|
  {
    var t := TallyOf(MesKeys(prestamos));
    var shown := MesesMostrados(prestamos);
    seq(|shown|, i requires 0 <= i < |shown| => MesBar(MesLabel(shown[i]), CountOf(t, shown[i])))
  }

  /** `maxPrestamosMes`, the scale of the bars. */
  function MaxPrestamosMes(prestamos: seq<Prestamo>): nat {
    MaxOr1(Map(Meses(prestamos), (b: MesBar) => b.cantidad))
  }

  lemma DistinctKeysOf(t: seq<(string, nat)>)
    requires DistinctKeys(t)
    ensures Distinct(KeysOf(t))
  {}

  /** The chart shows `min(6, number of distinct keys)` bars; their keys
      are keys of loans, strictly increasing, and greater than every key it
      leaves out; each bar counts exactly the loans under its key, at least
      one, and no bar is taller than the scale. */
  lemma {:induction false} MesesSpec(prestamos: seq<Prestamo>)
    ensures var shown := MesesMostrados(prestamos);
      && |shown| == Min(MONTHS_SHOWN, |TallyOf(MesKeys(prestamos))|)
      && StrictlyAscending(shown)
      && (forall i :: 0 <= i < |shown| ==> shown[i] in MesKeys(prestamos))
      && (forall k, i :: k in MesKeys(prestamos) && k !in shown && 0 <= i < |shown| ==> LexLess(k, shown[i]))
    ensures forall i :: 0 <= i < |Meses(prestamos)| ==>
      Meses(prestamos)[i].cantidad == multiset(MesKeys(prestamos))[MesesMostrados(prestamos)[i]] >= 1
    ensures forall i :: 0 <= i < |Meses(prestamos)| ==>
      Meses(prestamos)[i].mes == MesLabel(MesesMostrados(prestamos)[i]) && Meses(prestamos)[i].cantidad <= MaxPrestamosMes(prestamos)
  {
    var keys := MesKeys(prestamos);
    var t := TallyOf(keys);
    var sorted := SortLex(KeysOf(t));
    var shown := MesesMostrados(prestamos);
    SortedKeys(prestamos);
    LastSixSpec(sorted);
    forall i | 0 <= i < |shown| ensures shown[i] in keys {
      assert shown[i] in sorted;
    }
    MesesBars(prestamos);
  }

  /** The sorted keys are exactly the keys of the loans, strictly increasing. */
  lemma SortedKeys(prestamos: seq<Prestamo>)
    ensures var t := TallyOf(MesKeys(prestamos));
      && |SortLex(KeysOf(t))| == |t|
      && StrictlyAscending(SortLex(KeysOf(t)))
      && forall k :: k in SortLex(KeysOf(t)) <==> k in MesKeys(prestamos)
  {
    var keys := MesKeys(prestamos);
    var t := TallyOf(keys);
    var sorted := SortLex(KeysOf(t));
    TallyOfSpec(keys);
    DistinctKeysOf(t);
    SortLexSpec(KeysOf(t));
    forall k ensures k in sorted <==> k in keys {
      assert k in sorted <==> k in multiset(sorted);
      assert k in KeysOf(t) <==> k in multiset(KeysOf(t));
    }
  }

  /** The last six of strictly increasing keys are strictly increasing and
      above every key left out. */
  lemma LastSixSpec(s: seq<string>)
    requires StrictlyAscending(s)
    ensures StrictlyAscending(LastSix(s))
    ensures forall k, i :: k in s && k !in LastSix(s) && 0 <= i < |LastSix(s)| ==> LexLess(k, LastSix(s)[i])
  {
    var start := |s| - Min(MONTHS_SHOWN, |s|);
    var shown := LastSix(s);
    assert shown == s[start..];
    forall i, j | 0 <= i < j < |shown| ensures LexLess(shown[i], shown[j]) {
      assert shown[i] == s[start + i] && shown[j] == s[start + j];
    }
    forall m | start <= m < |s| ensures s[m] in shown {
      assert s[m] == shown[m - start];
    }
    forall k, i | k in s && k !in shown && 0 <= i < |shown| ensures LexLess(k, shown[i]) {
      var j :| 0 <= j < |s| && s[j] == k;
      assert j < start;
      assert shown[i] == s[start + i];
    }
  }

  /** Each bar counts the loans under its key, at least one, carries the
      key's month label, and is no taller than the scale. */
  lemma MesesBars(prestamos: seq<Prestamo>)
    ensures forall i :: 0 <= i < |Meses(prestamos)| ==>
      Meses(prestamos)[i].cantidad == multiset(MesKeys(prestamos))[MesesMostrados(prestamos)[i]] >= 1
    ensures forall i :: 0 <= i < |Meses(prestamos)| ==>
      Meses(prestamos)[i].mes == MesLabel(MesesMostrados(prestamos)[i]) && Meses(prestamos)[i].cantidad <= MaxPrestamosMes(prestamos)
  {
    var keys := MesKeys(prestamos);
    var t := TallyOf(keys);
    var shown := MesesMostrados(prestamos);
    var bars := Meses(prestamos);
    var cantidades := Map(bars, (b: MesBar) => b.cantidad);
    SortedKeys(prestamos);
    TallyOfSpec(keys);
    forall i | 0 <= i < |bars|
      ensures bars[i].cantidad == multiset(keys)[shown[i]] >= 1
      ensures bars[i].cantidad <= MaxPrestamosMes(prestamos)
    {
      assert shown[i] in SortLex(KeysOf(t));
      assert bars[i].cantidad == CountOf(t, shown[i]);
      assert cantidades[i] == bars[i].cantidad;
    }
  }

  // ---------------------------------------------------------------------
  // What the keys mean

  lemma FourDigitYear(y: int)
    requires 1000 <= y <= 9999
    ensures |IntToString(y)| == 4
  {
    var y1, y2, y3 := y / 10, y / 10 / 10, y / 10 / 10 / 10;
    assert 1 <= y3 <= 9;
    assert |NatToString(y3)| == 1;
    assert |NatToString(y2)| == |NatToString(y3)| + 1;
    assert |NatToString(y1)| == |NatToString(y2)| + 1;
    assert |NatToString(y)| == |NatToString(y1)| + 1;
  }

  /** The month part of a key: two digits whose value is the month number. */
  lemma {:induction false} MonthPart(monthIndex: MonthIndex)
    ensures var mm := Pad2(IntToString(monthIndex + 1));
      && |mm| == 2
      && (forall i :: 0 <= i < |mm| ==> IsDigit(mm[i]))
      && DigitsValue(mm) == monthIndex + 1
  {
    var k := monthIndex + 1;
    var s := IntToString(k);
    NatToStringValue(k);
    if k < 10 {
      assert |s| == 1;
      assert Pad2(s) == "0" + s;
      LeadingZeroValue(s);
    } else {
      assert k / 10 == 1;
      assert |s| == 2;
    }
  }

  /** A key of a four-digit year: four year digits, a dash, two month digits. */
  lemma {:induction false} MesKeyShape(f: Fecha)
    requires f.Fecha? && 1000 <= f.year <= 9999
    ensures var y, m := IntToString(f.year), Pad2(IntToString(f.monthIndex + 1));
      && MesKey(f) == y + ("-" + m)
      && |y| == 4 && (forall i :: 0 <= i < |y| ==> IsDigit(y[i])) && DigitsValue(y) == f.year
      && |m| == 2 && (forall i :: 0 <= i < |m| ==> IsDigit(m[i])) && DigitsValue(m) == f.monthIndex + 1
  {
    var y, m := IntToString(f.year), Pad2(IntToString(f.monthIndex + 1));
    FourDigitYear(f.year);
    NatToStringValue(f.year);
    MonthPart(f.monthIndex);
    assert MesKey(f) == y + ("-" + m);
  }

  /** For four-digit years, string order of the keys is chronological order. */
  lemma {:induction false} MesKeyOrder(f1: Fecha, f2: Fecha)
    requires f1.Fecha? && 1000 <= f1.year <= 9999
    requires f2.Fecha? && 1000 <= f2.year <= 9999
    ensures LexLess(MesKey(f1), MesKey(f2)) <==>
      f1.year < f2.year || (f1.year == f2.year && f1.monthIndex < f2.monthIndex)
  {
    var y1, y2 := IntToString(f1.year), IntToString(f2.year);
    var m1, m2 := Pad2(IntToString(f1.monthIndex + 1)), Pad2(IntToString(f2.monthIndex + 1));
    MesKeyShape(f1);
    MesKeyShape(f2);
    DigitsLexOrder(y1, y2);
    DigitsLexOrder(m1, m2);
    LexLessConcat(y1, "-" + m1, y2, "-" + m2);
    LexLessConcat("-", m1, "-", m2);
  }

  /** For four-digit years, different months have different keys. */
  lemma {:induction false} MesKeyInjective(f1: Fecha, f2: Fecha)
    requires f1.Fecha? && 1000 <= f1.year <= 9999
    requires f2.Fecha? && 1000 <= f2.year <= 9999
    ensures MesKey(f1) == MesKey(f2) <==> f1 == f2
  {
    var y1, y2 := IntToString(f1.year), IntToString(f2.year);
    var m1, m2 := Pad2(IntToString(f1.monthIndex + 1)), Pad2(IntToString(f2.monthIndex + 1));
    MesKeyShape(f1);
    MesKeyShape(f2);
    if MesKey(f1) == MesKey(f2) {
      assert y1 == MesKey(f1)[..4] && y2 == MesKey(f2)[..4];
      assert m1 == MesKey(f1)[5..] && m2 == MesKey(f2)[5..];
    }
  }

  /** For years with four digits, string order of the keys is chronological
      order, and different months have different keys; so the six bars are
      the six latest months with loans, oldest first. */
  lemma {:induction false} MesKeyChronological(f1: Fecha, f2: Fecha)
    requires f1.Fecha? && 1000 <= f1.year <= 9999
    requires f2.Fecha? && 1000 <= f2.year <= 9999
    ensures LexLess(MesKey(f1), MesKey(f2)) <==>
      f1.year < f2.year || (f1.year == f2.year && f1.monthIndex < f2.monthIndex)
    ensures MesKey(f1) == MesKey(f2) <==> f1 == f2
  {
    MesKeyOrder(f1, f2);
    MesKeyInjective(f1, f2);
  }

  /** When every loan has a valid date with a four-digit year, every month
      the chart leaves out is earlier than every month it shows. */
  lemma LatestMonthsShown(prestamos: seq<Prestamo>, p: Prestamo, q: Prestamo)
    requires forall i :: 0 <= i < |prestamos| ==>
      prestamos[i].fechaPrestamo.Fecha? && 1000 <= prestamos[i].fechaPrestamo.year <= 9999
    requires p in prestamos && q in prestamos
    requires MesKey(p.fechaPrestamo) !in MesesMostrados(prestamos)
    requires MesKey(q.fechaPrestamo) in MesesMostrados(prestamos)
    ensures p.fechaPrestamo.year < q.fechaPrestamo.year ||
      (p.fechaPrestamo.year == q.fechaPrestamo.year && p.fechaPrestamo.monthIndex < q.fechaPrestamo.monthIndex)
  {
    var keys := MesKeys(prestamos);
    var shown := MesesMostrados(prestamos);
    MesesSpec(prestamos);
    var ip :| 0 <= ip < |prestamos| && prestamos[ip] == p;
    var iq :| 0 <= iq < |prestamos| && prestamos[iq] == q;
    assert keys[ip] == MesKey(p.fechaPrestamo);
    var j :| 0 <= j < |shown| && shown[j] == MesKey(q.fechaPrestamo);
    MesKeyChronological(p.fechaPrestamo, q.fechaPrestamo);
  }

  /** A bar built from a valid date of a non-negative year is labelled with
      that date's month. */
  lemma {:induction false} MesLabelOfKey(fecha: Fecha)
    requires fecha.Fecha? && fecha.year >= 0
    ensures MesLabel(MesKey(fecha)) == Some(NOMBRES_MESES[fecha.monthIndex])
  {
    var mm := Pad2(IntToString(fecha.monthIndex + 1));
    MesKeyParts(fecha);
    MonthPart(fecha.monthIndex);
    ParseIntOfDigits(mm);
    var parts := Split(MesKey(fecha), '-');
    assert |parts| == 2 && parts[1] == mm;
    assert ParseInt(parts[1]) == Some(fecha.monthIndex + 1);
  }

  /** The key of a valid date of a non-negative year splits at `-` into the
      year and the two-digit month. */
  lemma {:induction false} MesKeyParts(fecha: Fecha)
    requires fecha.Fecha? && fecha.year >= 0
    ensures Split(MesKey(fecha), '-') == [IntToString(fecha.year), Pad2(IntToString(fecha.monthIndex + 1))]
  {
    var y := IntToString(fecha.year);
    var mm := Pad2(IntToString(fecha.monthIndex + 1));
    MonthPart(fecha.monthIndex);
    assert y == NatToString(fecha.year);
    assert '-' !in y && '-' !in mm;
    assert Join([y, mm], "-") == MesKey(fecha);
    SplitJoin([y, mm], '-');
  }

  /** An invalid date gives the key `NaN-NaN`, whose bar has no label. */
  lemma InvalidDateLabel()
    ensures MesKey(InvalidDate) == "NaN-NaN"
    ensures MesLabel(MesKey(InvalidDate)) == None
  {
    assert Join(["NaN", "NaN"], "-") == "NaN-NaN";
    SplitJoin(["NaN", "NaN"], '-');
    assert !IsSpace('N');
    assert TrimStart("NaN") == "NaN";
    assert DigitPrefix("NaN") == [];
  }
}
