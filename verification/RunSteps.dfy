/** Inside a run: what a consumer meets between one poll and the next. */
module RunSteps {
  import opened Wrappers
  import opened Snapshots
  import opened Consumers
  import opened DiffLaws
  import opened EventStreams
  import opened RunLaws

  /** Every event of a stretch makes sense where it lands. */
  ghost predicate LegalFrom(c: Consumer, items: seq<Item>) {
    forall j | 0 <= j < |items| && items[j].Event? :: Legal(Consume(c, items[..j]), items[j].event)
  }

  lemma LegalAppend(c: Consumer, xs: seq<Item>, ys: seq<Item>)
    requires LegalFrom(c, xs) && LegalFrom(Consume(c, xs), ys)
    ensures LegalFrom(c, xs + ys)
  {
    var all := xs + ys;
    forall j | 0 <= j < |all| && all[j].Event? ensures Legal(Consume(c, all[..j]), all[j].event) {
      if j < |xs| {
        assert all[..j] == xs[..j];
      } else {
        assert all[..j] == xs + ys[..j - |xs|];
        ConsumeAppend(c, xs, ys[..j - |xs|]);
      }
    }
  }

  lemma {:induction false} SaidPrefix(es: seq<PrinterEvent>, j: nat)
    requires j <= |es|
    ensures Said(es)[..j] == Said(es[..j])
  {
  }

  lemma SaidLegal(a: Snapshot, b: Snapshot)
    requires Unique(a) && Unique(b)
    ensures LegalFrom(View(a), Said(DiffEvents(a, b)))
  {
    var es := DiffEvents(a, b);
    forall j | 0 <= j < |es| ensures Legal(Consume(View(a), Said(es)[..j]), Said(es)[j].event) {
      SaidPrefix(es, j);
      ConsumeSaid(View(a), es[..j]);
      LegalStep(a, b, j);
    }
  }

  lemma TurnLegal(os: seq<PollOutcome>, c: Consumer)
    requires os != [] && forall o | o in os && o.Ok? :: Unique(o.value)
    ensures LegalFrom(Owed(c, os[..|os| - 1]), LastItems(os))
  {
    var n := |os| - 1;
    StateAfter(os[..n]);
    if os[n].Ok? && n > 0 && os[n - 1].Ok? {
      assert os[n - 1] in os && os[n] in os && os[..n][n - 1] == os[n - 1];
      SaidLegal(os[n - 1].value, os[n].value);
    }
  }

  /** In every run over snapshots without duplicates, every event of the stream makes sense to a
      consumer that has followed it from the beginning, whatever that consumer started from: removals
      name something it holds, additions something it does not, and changes really change. */
  lemma {:induction false} RunLegal(os: seq<PollOutcome>, c: Consumer)
    requires forall o | o in os && o.Ok? :: Unique(o.value)
    ensures LegalFrom(c, Run(os).items)
  {
    if os != [] {
      var front := os[..|os| - 1];
      RunLegal(front, c);
      Agreement(front, c);
      TurnLegal(os, c);
      LegalAppend(c, Run(front).items, LastItems(os));
    }
  }
}
