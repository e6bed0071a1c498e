/**
 * `main`: the endless fetch-analyse-save loop. Each turn fetches the
 * listing, waits a minute and starts over when it is empty, otherwise
 * analyses every item in order, keeps the analyses that succeeded, saves
 * them when there are any (overwriting the previous results) and waits an
 * hour. A turn that raises (a failed save, say) waits thirty seconds
 * instead; a keyboard interrupt ends the loop.
 *
 * The world a turn sees is an input: the listing pages, the outcome of
 * fetching each item's article, and whether saving succeeds. Sleeping is
 * recorded as the delay the loop asked for.
 */
module Scheduler {
  import opened Wrappers
  import opened Listing
  import opened Article
  import opened Seqs

  /** Seconds to wait after a turn that found no news. */
  const EmptyFetchDelay: nat := 60

  /** Seconds to wait after a completed turn. */
  const CycleDelay: nat := 3600

  /** Seconds to wait after a turn that raised. */
  const ErrorDelay: nat := 30

  /** What one turn of the loop meets. */
  datatype Turn =
    | Interrupted  // the user pressed Ctrl-C: the loop ends
    | Crashed      // a statement before the save raised (printing, say): nothing is saved
    | Cycle(
        pages: seq<ListingPage>,      // each registered source's listing page
        fetches: seq<ArticleFetch>,   // the article fetch of each listed item, in order
        saveOk: bool)                 // whether writing the results file succeeds

  /** The results file: never written, holding the last saved analyses, or left by a failed write. */
  datatype ResultFile = Absent | Written(analyses: seq<Analysis>) | Damaged

  /** What a turn leaves: the results file and the delay it sleeps, `None` when the loop ends. */
  datatype StepResult = StepResult(file: ResultFile, delay: Option<nat>)

  /** What a run of turns leaves: the results file and the delays slept, in order. */
  datatype RunResult = RunResult(file: ResultFile, delays: seq<nat>)

  /** A turn's inputs fit together: one page per source and one article fetch per listed item. */
  predicate WellFormedTurn(turn: Turn)
  {
    turn.Cycle? ==>
      |turn.pages| == |Registry| && |turn.fetches| == |AllNews(Registry, turn.pages)|
  }

  /** Every turn of a run is well-formed. */
  predicate WellFormedRun(turns: seq<Turn>)
  {
    forall k :: 0 <= k < |turns| ==> WellFormedTurn(turns[k])
  }

  /** `analyze_news` applied to each listed item with its article fetch. */
  function Outcomes(news: seq<NewsItem>, fetches: seq<ArticleFetch>, classify: string -> Option<Sentiment>)
    : (outcomes: seq<Option<Analysis>>)
    requires |fetches| == |news|
    ensures |outcomes| == |news|
  {
    seq(|news|, k requires 0 <= k < |news| => AnalyzeNews(news[k], fetches[k], classify))
  }

  /** The analyses that succeeded, in order; the failed ones are dropped. */
  function Successes<T>(outcomes: seq<Option<T>>): (results: seq<T>)
    ensures |results| <= |outcomes|
    decreases |outcomes|
  {
    if outcomes == [] then []
    else
      var last := |outcomes| - 1;
      Successes(outcomes[..last]) + (if outcomes[last].Some? then [outcomes[last].value] else [])
  }

  /** Every kept analysis is one of the outcomes: none is made up. */
  lemma {:induction false} SuccessesAreOutcomes<T>(outcomes: seq<Option<T>>)
    ensures forall a <- Successes(outcomes) :: Some(a) in outcomes
    decreases |outcomes|
  {
    if outcomes != [] {
      var front := outcomes[..|outcomes| - 1];
      SuccessesAreOutcomes(front);
      forall a <- Successes(front) ensures Some(a) in outcomes {
        var k :| 0 <= k < |front| && front[k] == Some(a);
        assert outcomes[k] == Some(a);
      }
    }
  }

  /** Nothing is kept exactly when every analysis failed. */
  lemma {:induction false} SuccessesEmpty<T>(outcomes: seq<Option<T>>)
    ensures Successes(outcomes) == [] <==> forall k :: 0 <= k < |outcomes| ==> outcomes[k].None?
    decreases |outcomes|
  {
    if outcomes != [] {
      var front := outcomes[..|outcomes| - 1];
      SuccessesEmpty(front);
      assert forall k :: 0 <= k < |front| ==> front[k] == outcomes[k];
    }
  }

  /** When no analysis failed, all are kept, in order. */
  lemma {:induction false} SuccessesAllKept<T>(outcomes: seq<Option<T>>)
    requires forall k :: 0 <= k < |outcomes| ==> outcomes[k].Some?
    ensures |Successes(outcomes)| == |outcomes|
    ensures forall k :: 0 <= k < |outcomes| ==> Some(Successes(outcomes)[k]) == outcomes[k]
    decreases |outcomes|
  {
    if outcomes != [] {
      var front := outcomes[..|outcomes| - 1];
      assert forall k :: 0 <= k < |front| ==> front[k] == outcomes[k];
      SuccessesAllKept(front);
    }
  }

  /** Outcomes are kept independently: the successes of two runs are theirs end to end. */
  lemma {:induction false} SuccessesConcat<T>(xs: seq<Option<T>>, ys: seq<Option<T>>)
    ensures Successes(xs + ys) == Successes(xs) + Successes(ys)
    decreases |ys|
  {
    if ys == [] {
      assert xs + ys == xs;
    } else {
      var last := |ys| - 1;
      assert (xs + ys)[..|xs| + last] == xs + ys[..last];
      assert (xs + ys)[|xs| + last] == ys[last];
      SuccessesConcat(xs, ys[..last]);
    }
  }

  /** A failed analysis leaves no trace: the others are kept as if it were not there. */
  lemma FailureSkipped<T>(xs: seq<Option<T>>, ys: seq<Option<T>>)
    ensures Successes(xs + [None] + ys) == Successes(xs) + Successes(ys)
  {
    var failed: seq<Option<T>> := [None];
    assert Successes(failed) == [] by {
      assert failed[..0] == [];
    }
    assert Successes(xs + failed) == Successes(xs) by {
      SuccessesConcat(xs, failed);
    }
    SuccessesConcat(xs + failed, ys);
  }

  /**
   * The `for news in news_items` loop: each item is analysed in turn and
   * its analysis appended when it succeeded.
   */
  method ProcessNews(news: seq<NewsItem>, fetches: seq<ArticleFetch>, classify: string -> Option<Sentiment>)
    returns (results: seq<Analysis>)
    requires |fetches| == |news|
    ensures results == Successes(Outcomes(news, fetches, classify))
  {
    ghost var outcomes := Outcomes(news, fetches, classify);
    results := [];
    for k := 0 to |news|
      invariant results == Successes(outcomes[..k])
    {
      var analysis := AnalyzeNews(news[k], fetches[k], classify);
      assert outcomes[..k + 1][..k] == outcomes[..k];
      if analysis.Some? {
        results := results + [analysis.value];
      }
    }
    assert outcomes[..|news|] == outcomes;
  }

  /**
   * Each kept analysis belongs to one of the listed items: same title,
   * source and link.
   */
  lemma ResultsComeFromListing(news: seq<NewsItem>, fetches: seq<ArticleFetch>, classify: string -> Option<Sentiment>)
    requires |fetches| == |news|
    ensures forall a <- Successes(Outcomes(news, fetches, classify)) ::
      exists k :: 0 <= k < |news| && a.title == news[k].title && a.source == news[k].source && a.link == news[k].link
  {
    var outcomes := Outcomes(news, fetches, classify);
    SuccessesAreOutcomes(outcomes);
    forall a: Analysis <- Successes(outcomes)
      ensures exists k :: 0 <= k < |news| && a.title == news[k].title && a.source == news[k].source && a.link == news[k].link
    {
      var k :| 0 <= k < |outcomes| && outcomes[k] == Some(a);
      assert outcomes[k] == AnalyzeNews(news[k], fetches[k], classify);
    }
  }

  /** The analyses a cycle keeps. */
  function CycleResults(turn: Turn, classify: string -> Option<Sentiment>): (results: seq<Analysis>)
    requires turn.Cycle? && WellFormedTurn(turn)
    ensures |results| <= 10
  {
    Successes(Outcomes(AllNews(Registry, turn.pages), turn.fetches, classify))
  }

  /** One turn of the loop: the results file it leaves and the delay it sleeps, `None` for an interrupt. */
  function CycleStep(file: ResultFile, turn: Turn, classify: string -> Option<Sentiment>): (step: StepResult)
    requires WellFormedTurn(turn)
    ensures step.delay.None? <==> turn.Interrupted?
  {
    match turn
    case Interrupted => StepResult(file, None)
    case Crashed => StepResult(file, Some(ErrorDelay))
    case Cycle(pages, fetches, saveOk) =>
      var news := AllNews(Registry, pages);
      if news == [] then StepResult(file, Some(EmptyFetchDelay))
      else
        var results := Successes(Outcomes(news, fetches, classify));
        if results == [] then StepResult(file, Some(CycleDelay))
        else if saveOk then StepResult(Written(results), Some(CycleDelay))
        else StepResult(Damaged, Some(ErrorDelay))
  }

  /**
   * What a turn does. A turn that raised before saving retries after
   * thirty seconds and leaves the file alone. An empty listing waits a minute and leaves the file
   * alone. A turn whose analyses all failed waits an hour and leaves the
   * file alone; otherwise the kept analyses replace the file's contents
   * whatever it held, or, when the save fails, the file is left damaged and
   * the loop retries after thirty seconds. A written file holds one to ten
   * analyses.
   */
  lemma CycleStepShape(file: ResultFile, turn: Turn, classify: string -> Option<Sentiment>)
    requires WellFormedTurn(turn)
    ensures var step := CycleStep(file, turn, classify);
      && (step.delay.Some? ==>
            step.delay.value == EmptyFetchDelay || step.delay.value == CycleDelay || step.delay.value == ErrorDelay)
      && (turn.Crashed? ==> step == StepResult(file, Some(ErrorDelay)))
      && (turn.Cycle? && AllNews(Registry, turn.pages) == [] ==> step == StepResult(file, Some(EmptyFetchDelay)))
      && (turn.Cycle? && CycleResults(turn, classify) == [] ==> step.file == file)
      && (turn.Cycle? && AllNews(Registry, turn.pages) != [] && CycleResults(turn, classify) == [] ==>
            step == StepResult(file, Some(CycleDelay)))
      && (turn.Cycle? && CycleResults(turn, classify) != [] ==>
            step == (if turn.saveOk then StepResult(Written(CycleResults(turn, classify)), Some(CycleDelay))
                     else StepResult(Damaged, Some(ErrorDelay))))
      && (step.file == file || step.file == Damaged || (step.file.Written? && 1 <= |step.file.analyses| <= 10))
  {
    if turn.Cycle? {
      var news := AllNews(Registry, turn.pages);
      if news == [] {
        assert Outcomes(news, turn.fetches, classify) == [];
      }
    }
  }

  /**
   * The loop over a run of turns, from the results file `file`: turn after
   * turn until an interrupt, or until the turns run out.
   */
  function Replay(file: ResultFile, turns: seq<Turn>, classify: string -> Option<Sentiment>): (run: RunResult)
    requires WellFormedRun(turns)
    ensures |run.delays| <= |turns|
    decreases |turns|
  {
    if turns == [] then RunResult(file, [])
    else
      var step := CycleStep(file, turns[0], classify);
      match step.delay
      case None => RunResult(file, [])
      case Some(delay) =>
        var rest := Replay(step.file, turns[1..], classify);
        RunResult(rest.file, [delay] + rest.delays)
  }

  /** Every delay the loop sleeps is one of the three. */
  lemma {:induction false} ReplayDelays(file: ResultFile, turns: seq<Turn>, classify: string -> Option<Sentiment>)
    requires WellFormedRun(turns)
    ensures forall d <- Replay(file, turns, classify).delays ::
      d == EmptyFetchDelay || d == CycleDelay || d == ErrorDelay
    decreases |turns|
  {
    if turns != [] {
      var step := CycleStep(file, turns[0], classify);
      CycleStepShape(file, turns[0], classify);
      if step.delay.Some? {
        var rest := Replay(step.file, turns[1..], classify);
        ReplayDelays(step.file, turns[1..], classify);
        assert Replay(file, turns, classify).delays == [step.delay.value] + rest.delays;
      }
    }
  }

  /** Without an interrupt the loop sleeps once per turn. */
  lemma {:induction false} ReplaySleepsEveryTurn(file: ResultFile, turns: seq<Turn>, classify: string -> Option<Sentiment>)
    requires WellFormedRun(turns) && forall k :: 0 <= k < |turns| ==> !turns[k].Interrupted?
    ensures |Replay(file, turns, classify).delays| == |turns|
    decreases |turns|
  {
    if turns != [] {
      var step := CycleStep(file, turns[0], classify);
      ReplaySleepsEveryTurn(step.file, turns[1..], classify);
    }
  }

  /**
   * Over any run the results file ends as it started, damaged by a failed
   * save, or holding between one and ten analyses.
   */
  lemma {:induction false} ReplayFile(file: ResultFile, turns: seq<Turn>, classify: string -> Option<Sentiment>)
    requires WellFormedRun(turns)
    ensures var run := Replay(file, turns, classify);
      run.file == file || run.file == Damaged || (run.file.Written? && 1 <= |run.file.analyses| <= 10)
    decreases |turns|
  {
    if turns != [] {
      var step := CycleStep(file, turns[0], classify);
      CycleStepShape(file, turns[0], classify);
      if step.delay.Some? {
        ReplayFile(step.file, turns[1..], classify);
      }
    }
  }

  /**
   * Nothing after an interrupt runs: the run up to any interrupted turn
   * leaves what the whole run leaves.
   */
  lemma {:induction false} InterruptEndsLoop(file: ResultFile, turns: seq<Turn>, i: nat, classify: string -> Option<Sentiment>)
    requires WellFormedRun(turns)
    requires i < |turns| && turns[i].Interrupted?
    ensures Replay(file, turns, classify) == Replay(file, turns[..i], classify)
    decreases i
  {
    if i > 0 {
      var step := CycleStep(file, turns[0], classify);
      PrefixTail(turns, i);
      if step.delay.Some? {
        var rest := Replay(step.file, turns[1..], classify);
        assert rest == Replay(step.file, turns[..i][1..], classify) by {
          assert turns[1..][i - 1] == turns[i];
          InterruptEndsLoop(step.file, turns[1..], i - 1, classify);
        }
        assert Replay(file, turns, classify) == RunResult(rest.file, [step.delay.value] + rest.delays);
        assert Replay(file, turns[..i], classify) == RunResult(rest.file, [step.delay.value] + rest.delays);
      }
    }
  }

  /** When every source's listing page is unreachable, nothing is listed. */
  lemma {:induction false} UnreachableListingEmpty(sources: seq<Source>, pages: seq<ListingPage>)
    requires |pages| == |sources|
    requires forall p <- pages :: p.Unreachable?
    ensures AllNews(sources, pages) == []
    decreases |sources|
  {
    if sources != [] {
      assert pages[0] in pages;
      assert forall p <- pages[1..] :: p in pages;
      UnreachableListingEmpty(sources[1..], pages[1..]);
    }
  }

  /**
   * A turn in which no listing page could be fetched waits a minute and
   * leaves the results file alone.
   */
  lemma AllSourcesDownRetriesInAMinute(file: ResultFile, turn: Turn, classify: string -> Option<Sentiment>)
    requires WellFormedTurn(turn) && turn.Cycle?
    requires forall p <- turn.pages :: p.Unreachable?
    ensures CycleStep(file, turn, classify) == StepResult(file, Some(EmptyFetchDelay))
  {
    UnreachableListingEmpty(Registry, turn.pages);
    CycleStepShape(file, turn, classify);
  }

  /** What is left to do from the results file `file`, after the delays `delays`, with the turns `rest` to come. */
  function Resume(file: ResultFile, delays: seq<nat>, rest: seq<Turn>, classify: string -> Option<Sentiment>): (run: RunResult)
    requires WellFormedRun(rest)
  {
    var run := Replay(file, rest, classify);
    RunResult(run.file, delays + run.delays)
  }

  /** Resuming before a turn that does not end the loop is resuming after it, with its delay slept. */
  lemma ResumeStep(file: ResultFile, delays: seq<nat>, turns: seq<Turn>, i: nat, classify: string -> Option<Sentiment>)
    requires WellFormedRun(turns)
    requires i < |turns| && !turns[i].Interrupted?
    ensures var step := CycleStep(file, turns[i], classify);
      && step.delay.Some?
      && Resume(file, delays, turns[i..], classify) == Resume(step.file, delays + [step.delay.value], turns[i + 1..], classify)
  {
    var step := CycleStep(file, turns[i], classify);
    assert turns[i..][0] == turns[i] && turns[i..][1..] == turns[i + 1..];
    var rest := Replay(step.file, turns[i + 1..], classify);
    assert delays + ([step.delay.value] + rest.delays) == (delays + [step.delay.value]) + rest.delays;
  }

  /** Resuming before an interrupted turn, or with no turns left, changes nothing more. */
  lemma ResumeStops(file: ResultFile, delays: seq<nat>, rest: seq<Turn>, classify: string -> Option<Sentiment>)
    requires WellFormedRun(rest)
    requires rest == [] || rest[0].Interrupted?
    ensures Resume(file, delays, rest, classify) == RunResult(file, delays)
  {
    assert delays + [] == delays;
  }

  /**
   * The body of `main`'s `try` for one turn that is not interrupted: fetch
   * the listing, `continue` after a minute when it is empty, analyse each
   * item, save what was kept, and sleep an hour, or thirty seconds when the
   * save raised.
   */
  method RunTurn(file: ResultFile, turn: Turn, classify: string -> Option<Sentiment>)
    returns (step: StepResult)
    requires WellFormedTurn(turn) && turn.Cycle?
    ensures step == CycleStep(file, turn, classify)
  {
    var newsItems := FetchFinanceNews(turn.pages);
    if newsItems == [] {
      return StepResult(file, Some(EmptyFetchDelay));
    }
    var results := ProcessNews(newsItems, turn.fetches, classify);
    var saved := file;
    if results != [] {
      if !turn.saveOk {
        return StepResult(Damaged, Some(ErrorDelay));
      }
      saved := Written(results);
    }
    step := StepResult(saved, Some(CycleDelay));
  }

  /**
   * `main`, over a run of turns: turn after turn until a keyboard
   * interrupt `break`s the loop. It leaves what `Replay` says.
   */
  method Run(initial: ResultFile, turns: seq<Turn>, classify: string -> Option<Sentiment>)
    returns (file: ResultFile, delays: seq<nat>)
    requires WellFormedRun(turns)
    ensures RunResult(file, delays) == Replay(initial, turns, classify)
  {
    file := initial;
    delays := [];
    var i := 0;
    while i < |turns|
      invariant 0 <= i <= |turns|
      invariant Replay(initial, turns, classify) == Resume(file, delays, turns[i..], classify)
    {
      if turns[i].Interrupted? {
        ResumeStops(file, delays, turns[i..], classify);
        break;
      }
      var step := StepResult(file, Some(ErrorDelay));
      if turns[i].Cycle? {
        step := RunTurn(file, turns[i], classify);
      }
      ResumeStep(file, delays, turns, i, classify);
      file := step.file;
      delays := delays + [step.delay.value];
      i := i + 1;
    }
    if i == |turns| {
      ResumeStops(file, delays, turns[i..], classify);
    }
  }
}
