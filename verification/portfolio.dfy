/** Portfolio aggregation (`analyze_portfolio_allocation`): value each holding,
    bucket it by market-cap class and by sector, and turn both breakdowns
    into percentages of the total. The market data the source fetches per
    symbol is an input here. */
module Portfolio {
  import opened Common

  /** 20,000 crore and 5,000 crore in rupees. */
  const LargeCapThreshold: int := 200000000000
  const MidCapThreshold: int := 50000000000

  /** What the market-data lookup returned for one symbol. */
  datatype MarketData =
    | Fetched(price: real, marketCap: int, sector: string)
    | FetchFailed

  /** One element of the holdings array; the empty symbol stands for a missing
      or empty "symbol" key. */
  datatype Entry =
    | NotAnObject
    | Holding(symbol: string, quantity: real, data: MarketData)

  /** The holdings argument after JSON parsing. */
  datatype HoldingsInput =
    | MalformedInput
    | NotAnArray
    | Entries(entries: seq<Entry>)

  datatype CapClass = LargeCap | MidCap | SmallCap

  function ClassifyCap(marketCap: int): (c: CapClass)
    ensures c == LargeCap <==> marketCap >= LargeCapThreshold
    ensures c == MidCap <==> MidCapThreshold <= marketCap < LargeCapThreshold
    ensures c == SmallCap <==> marketCap < MidCapThreshold
  {
    if marketCap >= LargeCapThreshold then LargeCap
    else if marketCap >= MidCapThreshold then MidCap
    else SmallCap
  }

  datatype HoldingRecord =
    | MissingSymbol
    | FetchError(symbol: string)
    | Valued(symbol: string, quantity: real, price: real, value: real, sector: string, cap: CapClass)

  datatype CapBuckets = CapBuckets(large: real, mid: real, small: real)

  function CapTotal(b: CapBuckets): real
  {
    b.large + b.mid + b.small
  }

  function AddToCap(b: CapBuckets, c: CapClass, v: real): (b': CapBuckets)
    ensures CapTotal(b') == CapTotal(b) + v
    ensures c == LargeCap ==> b' == b.(large := b.large + v)
    ensures c == MidCap ==> b' == b.(mid := b.mid + v)
    ensures c == SmallCap ==> b' == b.(small := b.small + v)
  {
    match c
    case LargeCap => b.(large := b.large + v)
    case MidCap => b.(mid := b.mid + v)
    case SmallCap => b.(small := b.small + v)
  }

  /** The per-sector breakdown, in first-seen order as a Python dict keeps it. */
  datatype SectorShare = SectorShare(sector: string, amount: real)

  function SectorTotal(s: seq<SectorShare>): real
  {
    if |s| == 0 then 0.0 else SectorTotal(s[..|s| - 1]) + s[|s| - 1].amount
  }

  predicate DistinctSectors(s: seq<SectorShare>)
  {
    forall i, j :: 0 <= i < j < |s| ==> s[i].sector != s[j].sector
  }

  function SectorNames(s: seq<SectorShare>): set<string>
  {
    set i | 0 <= i < |s| :: s[i].sector
  }

  /** Adds `v` to the sector's running amount, appending the sector the
      first time it is seen. */
  function AddToSector(s: seq<SectorShare>, sector: string, v: real): seq<SectorShare>
    decreases |s|
  {
    if sector !in SectorNames(s) || |s| == 0 then s + [SectorShare(sector, v)]
    else if s[|s| - 1].sector == sector then s[..|s| - 1] + [SectorShare(sector, s[|s| - 1].amount + v)]
    else AddToSector(s[..|s| - 1], sector, v) + [s[|s| - 1]]
  }

  /** Adding to a breakdown names the sector exactly once more: it updates
      a sector already present in place and appends a new one at the end. */
  lemma {:induction false} AddToSectorShape(s: seq<SectorShare>, sector: string, v: real)
    ensures var t := AddToSector(s, sector, v);
            && SectorNames(t) == SectorNames(s) + {sector}
            && (sector in SectorNames(s) ==> |t| == |s|)
            && (sector !in SectorNames(s) ==> t == s + [SectorShare(sector, v)])
    decreases |s|
  {
    if sector !in SectorNames(s) || |s| == 0 {
      NamesOfAppend(s, SectorShare(sector, v));
    } else {
      var init := s[..|s| - 1];
      var last := s[|s| - 1];
      assert s == init + [last];
      NamesOfAppend(init, last);
      if last.sector == sector {
        NamesOfAppend(init, SectorShare(sector, last.amount + v));
      } else {
        AddToSectorShape(init, sector, v);
        NamesOfAppend(AddToSector(init, sector, v), last);
      }
    }
  }

  /** Adding to a breakdown with distinct sectors keeps them distinct and
      adds `v` to the total. */
  lemma {:induction false} AddToSectorFacts(s: seq<SectorShare>, sector: string, v: real)
    requires DistinctSectors(s)
    ensures var t := AddToSector(s, sector, v);
            && DistinctSectors(t)
            && SectorTotal(t) == SectorTotal(s) + v
    decreases |s|
  {
    if sector !in SectorNames(s) || |s| == 0 {
      AppendNewSector(s, SectorShare(sector, v));
    } else {
      var init := s[..|s| - 1];
      var last := s[|s| - 1];
      assert s == init + [last];
      LastSectorIsNew(init, last);
      AppendNewSector(init, last);
      if last.sector == sector {
        AppendNewSector(init, SectorShare(sector, last.amount + v));
      } else {
        var u := AddToSector(init, sector, v);
        AddToSectorFacts(init, sector, v);
        AddToSectorShape(init, sector, v);
        AppendNewSector(u, last);
      }
    }
  }

  /** Appending a sector not yet present keeps the sectors distinct, adds
      its amount to the total and its name to the names. */
  lemma AppendNewSector(s: seq<SectorShare>, x: SectorShare)
    ensures SectorTotal(s + [x]) == SectorTotal(s) + x.amount
    ensures SectorNames(s + [x]) == SectorNames(s) + {x.sector}
    ensures DistinctSectors(s) && x.sector !in SectorNames(s) ==> DistinctSectors(s + [x])
  {
    var t := s + [x];
    assert t[..|s|] == s;
    NamesOfAppend(s, x);
    if DistinctSectors(s) && x.sector !in SectorNames(s) {
      forall i, j | 0 <= i < j < |t|
        ensures t[i].sector != t[j].sector
      {
        if j == |s| {
          assert t[i] == s[i];
          assert s[i].sector in SectorNames(s);
        } else {
          assert t[i] == s[i] && t[j] == s[j];
        }
      }
    }
  }

  /** In a breakdown with distinct sectors the last sector is not among the earlier ones. */
  lemma LastSectorIsNew(init: seq<SectorShare>, last: SectorShare)
    requires DistinctSectors(init + [last])
    ensures DistinctSectors(init)
    ensures last.sector !in SectorNames(init)
  {
    var t := init + [last];
    forall i, j | 0 <= i < j < |init|
      ensures init[i].sector != init[j].sector
    {
      assert t[i] == init[i] && t[j] == init[j];
    }
    forall i | 0 <= i < |init|
      ensures init[i].sector != last.sector
    {
      assert t[i] == init[i] && t[|init|] == last;
    }
  }

  lemma NamesOfAppend(s: seq<SectorShare>, x: SectorShare)
    ensures SectorNames(s + [x]) == SectorNames(s) + {x.sector}
  {
    var t := s + [x];
    forall n | n in SectorNames(t)
      ensures n in SectorNames(s) + {x.sector}
    {
      var i :| 0 <= i < |t| && t[i].sector == n;
      if i < |s| {
        assert s[i].sector == n;
      }
    }
    forall n | n in SectorNames(s)
      ensures n in SectorNames(t)
    {
      var i :| 0 <= i < |s| && s[i].sector == n;
      assert t[i].sector == n;
    }
    assert t[|s|].sector == x.sector;
  }

  datatype PortfolioState = PortfolioState(
    records: seq<HoldingRecord>,
    totalValue: real,
    byCap: CapBuckets,
    bySector: seq<SectorShare>)

  const EmptyPortfolio: PortfolioState := PortfolioState([], 0.0, CapBuckets(0.0, 0.0, 0.0), [])

  /** Before the conversion to percentages both breakdowns add up to the total. */
  predicate Balanced(p: PortfolioState)
  {
    && CapTotal(p.byCap) == p.totalValue
    && SectorTotal(p.bySector) == p.totalValue
    && DistinctSectors(p.bySector)
  }

  /** A holding's value: current price times quantity held. */
  function HoldingValue(price: real, quantity: real): real
  {
    price * quantity
  }

  /** An entry the loop values: an object with a symbol whose lookup succeeded. */
  predicate IsValued(e: Entry)
  {
    e.Holding? && e.symbol != "" && e.data.Fetched?
  }

  /** One iteration of the holdings loop. */
  function Step(p: PortfolioState, e: Entry): (q: PortfolioState)
    ensures e.NotAnObject? ==> q == p
    ensures e.Holding? ==> |q.records| == |p.records| + 1 && q.records[..|p.records|] == p.records
    ensures e.Holding? && (e.symbol == "" || e.data.FetchFailed?) ==>
              q.totalValue == p.totalValue && q.byCap == p.byCap && q.bySector == p.bySector
    // the error record each failure leaves
    ensures e.Holding? && e.symbol == "" ==> q.records[|p.records|] == MissingSymbol
    ensures e.Holding? && e.symbol != "" && e.data.FetchFailed? ==>
              q.records[|p.records|] == FetchError(e.symbol)
    // a fetched holding's value goes to the total, its own class and its own sector
    ensures IsValued(e) ==>
              var v := HoldingValue(e.data.price, e.quantity);
              && q.totalValue == p.totalValue + v
              && q.records[|p.records|]
                 == Valued(e.symbol, e.quantity, e.data.price, v, e.data.sector, ClassifyCap(e.data.marketCap))
              && q.byCap == AddToCap(p.byCap, ClassifyCap(e.data.marketCap), v)
              && q.bySector == AddToSector(p.bySector, e.data.sector, v)
  {
    match e
    case NotAnObject => p
    case Holding(symbol, quantity, data) =>
      if symbol == "" then p.(records := p.records + [MissingSymbol])
      else
        match data
        case FetchFailed => p.(records := p.records + [FetchError(symbol)])
        case Fetched(price, marketCap, sector) =>
          var value := HoldingValue(price, quantity);
          var c := ClassifyCap(marketCap);
          PortfolioState(p.records + [Valued(symbol, quantity, price, value, sector, c)],
                         p.totalValue + value,
                         AddToCap(p.byCap, c, value),
                         AddToSector(p.bySector, sector, value))
  }

  /** Each step keeps both breakdowns adding up to the total, and a valued
      holding's sector appears in the sector breakdown afterwards. */
  lemma StepKeepsBalanced(p: PortfolioState, e: Entry)
    requires Balanced(p)
    ensures Balanced(Step(p, e))
    ensures e.Holding? && e.symbol != "" && e.data.Fetched? ==> e.data.sector in SectorNames(Step(p, e).bySector)
  {
    if e.Holding? && e.symbol != "" && e.data.Fetched? {
      var value := HoldingValue(e.data.price, e.quantity);
      AddToSectorFacts(p.bySector, e.data.sector, value);
      AddToSectorShape(p.bySector, e.data.sector, value);
    }
  }

  /** How many array elements are objects (and so produce a record). */
  function ObjectCount(es: seq<Entry>): nat
  {
    if |es| == 0 then 0
    else ObjectCount(es[..|es| - 1]) + (if es[|es| - 1].Holding? then 1 else 0)
  }

  /** The holdings loop over a prefix of the array, in order. */
  function Aggregate(es: seq<Entry>): (p: PortfolioState)
    ensures Balanced(p)
    ensures |p.records| == ObjectCount(es)
    decreases |es|
  {
    if |es| == 0 then EmptyPortfolio
    else
      var p := Aggregate(es[..|es| - 1]);
      StepKeepsBalanced(p, es[|es| - 1]);
      Step(p, es[|es| - 1])
  }

  // ---------------------------------------------------------------- reference sums

  /** The value of a valued entry, and 0 for any other. */
  function EntryValue(e: Entry): real
  {
    if IsValued(e) then HoldingValue(e.data.price, e.quantity) else 0.0
  }

  /** Sum of the values of all valued entries. */
  function TotalValue(es: seq<Entry>): real
  {
    if |es| == 0 then 0.0 else TotalValue(es[..|es| - 1]) + EntryValue(es[|es| - 1])
  }

  /** Sum of the values of the valued entries of one market-cap class. */
  function ClassValue(es: seq<Entry>, c: CapClass): real
  {
    if |es| == 0 then 0.0
    else
      var e := es[|es| - 1];
      ClassValue(es[..|es| - 1], c)
      + (if IsValued(e) && ClassifyCap(e.data.marketCap) == c then EntryValue(e) else 0.0)
  }

  /** Sum of the values of the valued entries of one sector. */
  function SectorValue(es: seq<Entry>, name: string): real
  {
    if |es| == 0 then 0.0
    else
      var e := es[|es| - 1];
      SectorValue(es[..|es| - 1], name)
      + (if IsValued(e) && e.data.sector == name then EntryValue(e) else 0.0)
  }

  /** The amount a breakdown records for one sector (0 when it is absent). */
  function AmountOf(s: seq<SectorShare>, name: string): real
  {
    if |s| == 0 then 0.0
    else AmountOf(s[..|s| - 1], name) + (if s[|s| - 1].sector == name then s[|s| - 1].amount else 0.0)
  }

  lemma AmountOfAppend(s: seq<SectorShare>, x: SectorShare, name: string)
    ensures AmountOf(s + [x], name) == AmountOf(s, name) + (if x.sector == name then x.amount else 0.0)
  {
    assert (s + [x])[..|s|] == s;
  }

  /** Adding `v` to a sector raises that sector's amount by `v` and leaves
      every other sector's amount alone. */
  lemma {:induction false} AddToSectorAmount(s: seq<SectorShare>, sector: string, v: real, name: string)
    ensures AmountOf(AddToSector(s, sector, v), name)
            == AmountOf(s, name) + (if sector == name then v else 0.0)
    decreases |s|
  {
    if sector !in SectorNames(s) || |s| == 0 {
      AmountOfAppend(s, SectorShare(sector, v), name);
    } else {
      var init := s[..|s| - 1];
      var last := s[|s| - 1];
      assert s == init + [last];
      AmountOfAppend(init, last, name);
      if last.sector == sector {
        AmountOfAppend(init, SectorShare(sector, last.amount + v), name);
      } else {
        AddToSectorAmount(init, sector, v, name);
        AmountOfAppend(AddToSector(init, sector, v), last, name);
      }
    }
  }

  /** The loop computes the reference sums: the total is the sum over valued
      holdings, each cap bucket holds exactly its own class's values, and
      each sector's amount is exactly its own holdings' values. */
  lemma AggregateIsReference(es: seq<Entry>)
    ensures Aggregate(es).totalValue == TotalValue(es)
    ensures Aggregate(es).byCap
            == CapBuckets(ClassValue(es, LargeCap), ClassValue(es, MidCap), ClassValue(es, SmallCap))
    ensures forall name :: AmountOf(Aggregate(es).bySector, name) == SectorValue(es, name)
  {
    AggregateTotal(es);
    AggregateByCap(es);
    forall name
      ensures AmountOf(Aggregate(es).bySector, name) == SectorValue(es, name)
    {
      AggregateBySector(es, name);
    }
  }

  lemma {:induction false} AggregateTotal(es: seq<Entry>)
    ensures Aggregate(es).totalValue == TotalValue(es)
    decreases |es|
  {
    if |es| > 0 {
      var init := es[..|es| - 1];
      var e := es[|es| - 1];
      AggregateTotal(init);
      assert Aggregate(es) == Step(Aggregate(init), e);
      assert TotalValue(es) == TotalValue(init) + EntryValue(e);
    }
  }

  lemma {:induction false} AggregateByCap(es: seq<Entry>)
    ensures Aggregate(es).byCap
            == CapBuckets(ClassValue(es, LargeCap), ClassValue(es, MidCap), ClassValue(es, SmallCap))
    decreases |es|
  {
    if |es| > 0 {
      var init := es[..|es| - 1];
      var e := es[|es| - 1];
      AggregateByCap(init);
      assert Aggregate(es) == Step(Aggregate(init), e);
    }
  }

  lemma {:induction false} AggregateBySector(es: seq<Entry>, name: string)
    ensures AmountOf(Aggregate(es).bySector, name) == SectorValue(es, name)
    decreases |es|
  {
    if |es| > 0 {
      var init := es[..|es| - 1];
      var e := es[|es| - 1];
      AggregateBySector(init, name);
      var p := Aggregate(init);
      assert Aggregate(es) == Step(p, e);
      if IsValued(e) {
        AddToSectorAmount(p.bySector, e.data.sector, EntryValue(e), name);
      }
    }
  }

  function Percent(x: real, total: real): real
    requires total != 0.0
  {
    x / total * 100.0
  }

  function SectorPercents(s: seq<SectorShare>, total: real): (t: seq<SectorShare>)
    requires total != 0.0
    ensures |t| == |s|
    ensures forall i :: 0 <= i < |s| ==> t[i] == SectorShare(s[i].sector, Percent(s[i].amount, total))
  {
    seq(|s|, i requires 0 <= i < |s| => SectorShare(s[i].sector, Percent(s[i].amount, total)))
  }

  /** The amounts become percentages of the total only when the total is
      positive; otherwise they are left as amounts. */
  function ToPercentages(p: PortfolioState): PortfolioState
  {
    if p.totalValue > 0.0 then
      var t := p.totalValue;
      p.(byCap := CapBuckets(Percent(p.byCap.large, t), Percent(p.byCap.mid, t), Percent(p.byCap.small, t)),
         bySector := SectorPercents(p.bySector, t))
    else p
  }

  function AnalyzePortfolio(input: HoldingsInput): (r: Result<PortfolioState>)
    ensures input.MalformedInput? ==> r == Err(MalformedJson)
    ensures input.NotAnArray? ==> r == Err(HoldingsNotAList)
    ensures input.Entries? && |input.entries| == 0 ==> r == Err(EmptyHoldings)
    ensures r.Ok? <==> input.Entries? && |input.entries| > 0
    ensures r.Ok? ==>
      && |r.value.records| == ObjectCount(input.entries)
      && r.value.totalValue == Aggregate(input.entries).totalValue
      && r.value.records == Aggregate(input.entries).records
      // a non-positive total leaves the amounts, which still add up to it
      && (r.value.totalValue <= 0.0 ==> Balanced(r.value))
  {
    match input
    case MalformedInput => Err(MalformedJson)
    case NotAnArray => Err(HoldingsNotAList)
    case Entries(es) =>
      if |es| == 0 then Err(EmptyHoldings)
      else Ok(ToPercentages(Aggregate(es)))
  }

  /** Scaling every amount by the same factor scales their total. */
  lemma {:induction false} SectorPercentsTotal(s: seq<SectorShare>, total: real)
    requires total != 0.0
    ensures SectorTotal(SectorPercents(s, total)) == Percent(SectorTotal(s), total)
    decreases |s|
  {
    if |s| > 0 {
      var init := s[..|s| - 1];
      var t := SectorPercents(s, total);
      assert t[..|t| - 1] == SectorPercents(init, total);
      SectorPercentsTotal(init, total);
      assert Percent(SectorTotal(init), total) + Percent(s[|s| - 1].amount, total)
             == Percent(SectorTotal(init) + s[|s| - 1].amount, total);
    }
  }

  /** Percentages of one total add like the amounts they come from. */
  lemma PercentsOfThree(a: real, b: real, c: real, t: real)
    requires t != 0.0
    ensures Percent(a, t) + Percent(b, t) + Percent(c, t) == Percent(a + b + c, t)
  {
  }

  lemma PercentOfWhole(t: real)
    requires t != 0.0
    ensures Percent(t, t) == 100.0
  {
    assert t / t == 1.0;
  }

  /** With a positive total, each breakdown's percentages add up to 100. */
  lemma PercentagesAddUp(input: HoldingsInput)
    requires AnalyzePortfolio(input).Ok?
    requires AnalyzePortfolio(input).value.totalValue > 0.0
    ensures CapTotal(AnalyzePortfolio(input).value.byCap) == 100.0
    ensures SectorTotal(AnalyzePortfolio(input).value.bySector) == 100.0
  {
    var p := Aggregate(input.entries);
    var t := p.totalValue;
    var q := ToPercentages(p);
    assert AnalyzePortfolio(input).value == q;
    assert t > 0.0;
    assert q.byCap == CapBuckets(Percent(p.byCap.large, t), Percent(p.byCap.mid, t), Percent(p.byCap.small, t));
    assert q.bySector == SectorPercents(p.bySector, t);
    SectorPercentsTotal(p.bySector, t);
    PercentsOfThree(p.byCap.large, p.byCap.mid, p.byCap.small, t);
    PercentOfWhole(t);
  }
}
