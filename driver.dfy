/** `activities_list`: the fetched feed is walked in reverse (last
    fetched first), each activity is rendered in turn, and the first
    failure ends the walk. The currency
    and the activities, fetched over the network by the program, are
    parameters here. */
module Driver {
  import opened Activities
  import opened Ledger
  import opened Render

  /** What a walk over the feed leaves behind: the entries written, in
      order, and the error that stopped it, if any. */
  datatype Run = Run(journal: seq<Entry>, failure: Option<Error>)

  /** The entries one rendered activity contributes. */
  function Emitted(o: Option<Entry>): (es: seq<Entry>)
    ensures |es| <= 1
    ensures es == [] <==> o.None?
  {
    match o
    case Some(e) => [e]
    case None => []
  }

  /** The elements of `s`, last first. */
  function Reversed<T>(s: seq<T>): (r: seq<T>)
    ensures |r| == |s|
    ensures forall i :: 0 <= i < |s| ==> r[i] == s[|s| - 1 - i]
  {
    if s == [] then [] else Reversed(s[1..]) + [s[0]]
  }

  /** Rendering `acts` front to back, stopping at the first activity that
      fails: everything written is a balanced entry in the reporting
      currency, and at most one entry is written per activity. */
  function Journal(acts: seq<Activity>, cfg: Config): (r: Run)
    ensures |r.journal| <= |acts|
    ensures forall e <- r.journal :: Balances(e) && InCurrency(e, cfg.currency)
  {
    if acts == [] then Run([], None)
    else
      match RenderActivity(acts[0], cfg)
      case Err(err) => Run([], Some(err))
      case Ok(o) =>
        var rest := Journal(acts[1..], cfg);
        Run(Emitted(o) + rest.journal, rest.failure)
  }

  /** Appending one activity to a walk that has not failed yet renders it
      after everything before it. */
  lemma {:induction false} JournalSnoc(acts: seq<Activity>, a: Activity, cfg: Config)
    requires Journal(acts, cfg).failure == None
    ensures Journal(acts + [a], cfg) ==
      match RenderActivity(a, cfg)
      case Err(err) => Run(Journal(acts, cfg).journal, Some(err))
      case Ok(o) => Run(Journal(acts, cfg).journal + Emitted(o), None)
  {
    if acts == [] {
      assert acts + [a] == [a];
      assert [a][1..] == [];
    } else {
      assert (acts + [a])[1..] == acts[1..] + [a];
      JournalSnoc(acts[1..], a, cfg);
    }
  }

  /** Once a walk has failed, nothing after the failing activity is
      rendered. */
  lemma {:induction false} JournalStops(acts: seq<Activity>, later: seq<Activity>, cfg: Config)
    requires Journal(acts, cfg).failure.Some?
    ensures Journal(acts + later, cfg) == Journal(acts, cfg)
  {
    assert acts != [];
    assert (acts + later)[0] == acts[0];
    if RenderActivity(acts[0], cfg).Ok? {
      assert (acts + later)[1..] == acts[1..] + later;
      JournalStops(acts[1..], later, cfg);
    }
  }

  /** Reversing a concatenation reverses and swaps its parts. */
  lemma {:induction false} ReversedAppend<T>(a: seq<T>, b: seq<T>)
    ensures Reversed(a + b) == Reversed(b) + Reversed(a)
  {
  }

  /** A walk ends without failure exactly when every activity renders. */
  lemma {:induction false} JournalSucceeds(acts: seq<Activity>, cfg: Config)
    ensures Journal(acts, cfg).failure == None <==>
      forall i :: 0 <= i < |acts| ==> RenderActivity(acts[i], cfg).Ok?
  {
    if acts != [] {
      JournalSucceeds(acts[1..], cfg);
      assert forall i :: 1 <= i < |acts| ==> acts[i] == acts[1..][i - 1];
    }
  }

  /** The walk over `acts` failed at activity `k`: it is the first one
      that does not render, the walk reports its error, and the entries
      written are exactly those of the activities before it. */
  ghost predicate FailsAt(acts: seq<Activity>, k: nat, cfg: Config)
  {
    k < |acts| && RenderActivity(acts[k], cfg).Err? &&
    (forall i :: 0 <= i < k ==> RenderActivity(acts[i], cfg).Ok?) &&
    Journal(acts, cfg) == Run(Journal(acts[..k], cfg).journal, Some(RenderActivity(acts[k], cfg).error))
  }

  /** A failed walk failed at the first activity that does not render,
      with that activity's error, and kept exactly the entries of the
      activities before it. */
  lemma {:induction false} JournalFailsAtFirstError(acts: seq<Activity>, cfg: Config)
    requires Journal(acts, cfg).failure.Some?
    ensures exists k: nat :: FailsAt(acts, k, cfg)
  {
    assert acts != [];
    match RenderActivity(acts[0], cfg)
    case Err(err) =>
      assert acts[..0] == [];
      assert FailsAt(acts, 0, cfg);
    case Ok(o) =>
      var tail := acts[1..];
      JournalFailsAtFirstError(tail, cfg);
      var k: nat :| FailsAt(tail, k, cfg);
      var prefix := acts[..k + 1];
      assert prefix[0] == acts[0] && prefix[1..] == tail[..k];
      assert Journal(prefix, cfg).journal == Emitted(o) + Journal(tail[..k], cfg).journal;
      assert acts[k + 1] == tail[k];
      assert forall i :: 1 <= i < k + 1 ==> acts[i] == tail[i - 1];
      assert FailsAt(acts, k + 1, cfg);
  }

  /** A feed of trades whose symbols the registry knows renders completely,
      one entry per trade, in the order walked. */
  lemma {:induction false} TradesRenderInOrder(acts: seq<Activity>, cfg: Config)
    requires forall a <- acts :: a.Trade? && a.trade.symbol in cfg.registry
    ensures Journal(acts, cfg).failure == None
    ensures |Journal(acts, cfg).journal| == |acts|
    ensures forall i :: 0 <= i < |acts| ==>
      Journal(acts, cfg).journal[i] == RenderTrade(acts[i].trade, cfg.investmentAccount,
        cfg.brokerageAccount, cfg.registry, cfg.currency).value
  {
    if acts != [] {
      TradesRenderInOrder(acts[1..], cfg);
      assert forall i :: 1 <= i < |acts| ==> acts[i] == acts[1..][i - 1];
    }
  }

  /** The driver writes the fetched feed in reverse: for a feed of known
      trades, entry `i` is that of feed activity `|feed| - 1 - i`. */
  lemma FeedRenderedInReverse(activities: seq<Activity>, cfg: Config)
    requires forall a <- activities :: a.Trade? && a.trade.symbol in cfg.registry
    ensures var run := Journal(Reversed(activities), cfg);
      run.failure == None && |run.journal| == |activities| &&
      forall i :: 0 <= i < |activities| ==>
        run.journal[i] == RenderTrade(activities[|activities| - 1 - i].trade, cfg.investmentAccount,
          cfg.brokerageAccount, cfg.registry, cfg.currency).value
  {
    var rev := Reversed(activities);
    assert forall a <- rev :: a in activities;
    TradesRenderInOrder(rev, cfg);
  }

  /** A non-trade of a kind the renderer ignores changes nothing, wherever
      it sits in the feed. */
  lemma {:induction false} IgnoredActivityVanishes(
    before: seq<Activity>, ignored: Activity, after: seq<Activity>, cfg: Config)
    requires ignored.NonTrade? && !IsRendered(ignored.nonTrade.kind)
    ensures Journal(before + [ignored] + after, cfg) == Journal(before + after, cfg)
  {
    if before == [] {
      assert before + [ignored] + after == [ignored] + after;
      assert ([ignored] + after)[1..] == after;
      assert before + after == after;
    } else {
      assert (before + [ignored] + after)[0] == before[0] && (before + after)[0] == before[0];
      assert (before + [ignored] + after)[1..] == before[1..] + [ignored] + after;
      assert (before + after)[1..] == before[1..] + after;
      IgnoredActivityVanishes(before[1..], ignored, after, cfg);
    }
  }

  method ActivitiesList(activities: seq<Activity>, cfg: Config)
    returns (journal: seq<Entry>, failure: Option<Error>)
    ensures Run(journal, failure) == Journal(Reversed(activities), cfg)
  {
    journal := [];
    failure := None;
    var i := |activities|;
    while i > 0
      invariant 0 <= i <= |activities|
      invariant Journal(Reversed(activities[i..]), cfg) == Run(journal, None)
    {
      ghost var done := activities[i..];
      i := i - 1;
      assert activities[i..] == [activities[i]] + done;
      ReversedAppend([activities[i]], done);
      assert Reversed([activities[i]]) == [activities[i]];
      JournalSnoc(Reversed(done), activities[i], cfg);
      match RenderActivity(activities[i], cfg) {
        case Err(err) =>
          failure := Some(err);
          assert activities == activities[..i] + activities[i..];
          ReversedAppend(activities[..i], activities[i..]);
          JournalStops(Reversed(activities[i..]), Reversed(activities[..i]), cfg);
          return;
        case Ok(o) =>
          journal := journal + Emitted(o);
      }
    }
    assert activities[0..] == activities;
  }
}
