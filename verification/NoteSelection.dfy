/** Input selection: prepareInputsForTransfer of fungible/states.go. */
module NoteSelection {
  import opened Notes
  import opened Paging
  import opened Wrappers

  const MAX_INPUT_COUNT: nat := 10
  const PAGE: nat := 10

  type State = Row<Note>

  datatype Outcome =
    | Selected(states: seq<State>, total: nat)
    | InsufficientFunds(sum: nat)
    | MaxNotesReached
    | InvalidNote(id: nat)
    | QueryFailed

  function Value(s: State): nat
  {
    if s.data.Some? then s.data.value.value else 0
  }

  function Sum(states: seq<State>): nat
  {
    if states == [] then 0 else Sum(states[..|states| - 1]) + Value(states[|states| - 1])
  }

  lemma {:induction false} SumSnoc(states: seq<State>, s: State)
    ensures Sum(states + [s]) == Sum(states) + Value(s)
  {
    assert (states + [s])[..|states|] == states;
  }

  // ---------------------------------------------------------------------------
  // What selection means on a whole store
  // ---------------------------------------------------------------------------

  /** Selection on the whole list, from the state at `k` on. */
  function SelectFrom(store: seq<State>, target: int, k: nat): (r: Outcome)
    requires k <= |store|
    ensures !r.QueryFailed?
    decreases |store| - k
  {
    if k == |store| then InsufficientFunds(Sum(store))
    else if store[k].data.None? then InvalidNote(store[k].id)
    else if Sum(store[..k + 1]) >= target then Selected(store[..k + 1], Sum(store[..k + 1]))
    else if k + 1 >= MAX_INPUT_COUNT then MaxNotesReached
    else SelectFrom(store, target, k + 1)
  }

  function Select(store: seq<State>, target: int): Outcome
  {
    SelectFrom(store, target, 0)
  }

  /** The first `n` states are the shortest nonempty prefix that reaches the target. */
  ghost predicate ShortestCover(store: seq<State>, target: int, n: nat)
  {
    && 1 <= n <= |store|
    && Sum(store[..n]) >= target
    && forall m :: 1 <= m < n ==> Sum(store[..m]) < target
  }

  /** Each outcome, exactly. */
  lemma {:induction false} SelectionExactly(store: seq<State>, target: int)
    requires Decodable(store)
    ensures Select(store, target).Selected?
       <==> exists n: nat :: n <= 10 && ShortestCover(store, target, n)
    ensures forall n: nat :: n <= 10 && ShortestCover(store, target, n)
             ==> Select(store, target) == Selected(store[..n], Sum(store[..n]))
    ensures Select(store, target).MaxNotesReached?
       <==> |store| >= 10 && forall m :: 1 <= m <= 10 ==> Sum(store[..m]) < target
    ensures Select(store, target).InsufficientFunds?
       <==> |store| < 10 && forall m :: 1 <= m <= |store| ==> Sum(store[..m]) < target
    ensures Select(store, target).InsufficientFunds? ==> Select(store, target).sum == Sum(store)
  {
    SelectFromExactly(store, target, 0);
  }

  lemma {:induction false} SelectFromExactly(store: seq<State>, target: int, k: nat)
    requires Decodable(store) && k <= |store| && k < MAX_INPUT_COUNT
    requires forall m :: 1 <= m <= k ==> Sum(store[..m]) < target
    ensures var r := SelectFrom(store, target, k);
      match r
      case Selected(states, total) =>
        exists n: nat :: k < n <= MAX_INPUT_COUNT && ShortestCover(store, target, n) && states == store[..n]
          && total == Sum(states)
      case MaxNotesReached =>
        |store| >= MAX_INPUT_COUNT && forall m :: 1 <= m <= MAX_INPUT_COUNT ==> Sum(store[..m]) < target
      case InsufficientFunds(sum) =>
        sum == Sum(store) && |store| < MAX_INPUT_COUNT && forall m :: 1 <= m <= |store| ==> Sum(store[..m]) < target
      case _ => false
    decreases |store| - k
  {
    if k < |store| {
      if Sum(store[..k + 1]) >= target {
        assert ShortestCover(store, target, k + 1);
      } else if k + 1 < MAX_INPUT_COUNT {
        SelectFromExactly(store, target, k + 1);
      }
    }
  }

  /** Whatever the store, a selection is a decodable shortest cover of at most ten notes. */
  lemma {:induction false} SelectedIsCover(store: seq<State>, target: int)
    requires Select(store, target).Selected?
    ensures var r := Select(store, target);
      && r.states <= store && 1 <= |r.states| <= MAX_INPUT_COUNT && Decodable(r.states)
      && r.total == Sum(r.states) && r.total >= target
  {
    SelectedFromIsCover(store, target, 0);
  }

  lemma {:induction false} SelectedFromIsCover(store: seq<State>, target: int, k: nat)
    requires k <= |store| && k < MAX_INPUT_COUNT && Decodable(store[..k])
    requires SelectFrom(store, target, k).Selected?
    ensures var r := SelectFrom(store, target, k);
      && r.states <= store && 1 <= |r.states| <= MAX_INPUT_COUNT && Decodable(r.states)
      && r.total == Sum(r.states) && r.total >= target
    decreases |store| - k
  {
    assert store[..k + 1] == store[..k] + [store[k]];
    if Sum(store[..k + 1]) < target {
      SelectedFromIsCover(store, target, k + 1);
    }
  }

  /** The surplus of a selection is less than the last note it took. */
  lemma {:induction false} ChangeBelowLastNote(store: seq<State>, target: int)
    requires Decodable(store) && target > 0 && Select(store, target).Selected?
    ensures var r := Select(store, target);
      r.states != [] && r.total - target < Value(r.states[|r.states| - 1])
  {
    SelectionExactly(store, target);
    var n: nat :| n <= MAX_INPUT_COUNT && ShortestCover(store, target, n);
    assert store[..n][..n - 1] == store[..n - 1];
  }

  // ---------------------------------------------------------------------------
  // Selection through an arbitrary query
  // ---------------------------------------------------------------------------

  /** What one page adds to the states taken: a final outcome, or a longer list. */
  datatype Progress = Done(outcome: Outcome) | Taken(states: seq<State>)

  function TakePage(page: seq<State>, taken: seq<State>, target: int): (p: Progress)
    requires |taken| < MAX_INPUT_COUNT
    ensures p.Taken? ==> p.states == taken + page && |p.states| < MAX_INPUT_COUNT
    ensures p.Done? ==> p.outcome.Selected? || p.outcome.MaxNotesReached? || p.outcome.InvalidNote?
    decreases |page|
  {
    if page == [] then assert taken + page == taken; Taken(taken)
    else if page[0].data.None? then Done(InvalidNote(page[0].id))
    else
      var more := taken + [page[0]];
      if Sum(more) >= target then Done(Selected(more, Sum(more)))
      else if |more| >= MAX_INPUT_COUNT then Done(MaxNotesReached)
      else assert more + page[1..] == taken + page; TakePage(page[1..], more, target)
  }

  /** The outcome of querying from the n-th query on, given the states taken so far. */
  function Serve(query: Query<Note>, n: nat, last: int, taken: seq<State>, target: int): Outcome
    requires |taken| < MAX_INPUT_COUNT
    decreases MAX_INPUT_COUNT - |taken|
  {
    match query(n, last)
    case None => QueryFailed
    case Some(page) =>
      if page == [] then InsufficientFunds(Sum(taken))
      else
        match TakePage(page, taken, target)
        case Done(outcome) => outcome
        case Taken(states) => Serve(query, n + 1, page[|page| - 1].created, states, target)
  }

  /** Whatever the query answers: at most ten states, and the last one was needed. */
  lemma {:induction false} ServedCover(query: Query<Note>, n: nat, last: int, taken: seq<State>, target: int)
    requires |taken| < MAX_INPUT_COUNT && Decodable(taken)
    requires forall m :: 1 <= m <= |taken| ==> Sum(taken[..m]) < target
    ensures var r := Serve(query, n, last, taken, target);
      match r
      case Selected(states, total) =>
        && |states| <= MAX_INPUT_COUNT && Decodable(states)
        && ShortestCover(states, target, |states|) && total == Sum(states)
      case InsufficientFunds(sum) => sum < target || sum == 0
      case _ => true
    decreases MAX_INPUT_COUNT - |taken|
  {
    var res := query(n, last);
    if res.None? {
    } else if res.value == [] {
      assert taken[..|taken|] == taken;
    } else {
      PageCover(res.value, taken, target);
      var p := TakePage(res.value, taken, target);
      if p.Taken? {
        ServedCover(query, n + 1, res.value[|res.value| - 1].created, p.states, target);
      }
    }
  }

  lemma {:induction false} PageCover(page: seq<State>, taken: seq<State>, target: int)
    requires |taken| < MAX_INPUT_COUNT && Decodable(taken)
    requires forall m :: 1 <= m <= |taken| ==> Sum(taken[..m]) < target
    ensures match TakePage(page, taken, target)
      case Taken(states) => Decodable(states) && forall m :: 1 <= m <= |states| ==> Sum(states[..m]) < target
      case Done(Selected(states, total)) =>
        && |states| <= MAX_INPUT_COUNT && Decodable(states)
        && ShortestCover(states, target, |states|) && total == Sum(states)
      case Done(o) => o.MaxNotesReached? || o.InvalidNote?
    decreases |page|
  {
    if page != [] && page[0].data.Some? {
      var more := taken + [page[0]];
      assert forall m :: 1 <= m <= |taken| ==> more[..m] == taken[..m];
      assert more[..|more|] == more;
      if Sum(more) < target && |more| < MAX_INPUT_COUNT {
        PageCover(page[1..], more, target);
      }
    }
  }

  /** The store is empty or its last stamp is positive. */
  ghost predicate EndsStamped(store: seq<State>)
  {
    store == [] || store[|store| - 1].created > 0
  }

  /** On an honest store, paging is invisible exactly when the last stamp is positive, or the
    * first page decides: otherwise the loop reads the first page again and never runs dry.
    * Equal stamps do no harm, because a page is as long as the input limit. */
  lemma {:induction false} ServedHonestly(query: Query<Note>, store: seq<State>, target: int)
    requires Honest(query, store, 10) && SortedByCreated(store)
    ensures Serve(query, 0, 0, [], target) == Select(store, target)
       <==> EndsStamped(store) || !Select(store, target).InsufficientFunds?
  {
    if EndsStamped(store) || !Select(store, target).InsufficientFunds? {
      ServedTruthfully(query, store, target);
    } else {
      NeverRunsDry(query, 0, 0, [], store, target);
    }
  }

  /** Even when queries may fail, nothing but a failed query changes the outcome. */
  lemma {:induction false} ServedTruthfully(query: Query<Note>, store: seq<State>, target: int)
    requires Truthful(query, store, 10) && SortedByCreated(store)
    requires EndsStamped(store) || !Select(store, target).InsufficientFunds?
    ensures var r := Serve(query, 0, 0, [], target);
      r == Select(store, target) || (r.QueryFailed? && !Answers(query))
  {
    if query(0, 0).Some? {
      FirstQuery(query, store);
      FirstPage(store, target);
      ServedFrom(query, store, target);
    }
  }

  lemma {:induction false} FirstQuery(query: Query<Note>, store: seq<State>)
    requires Truthful(query, store, PAGE) && query(0, 0).Some?
    ensures query(0, 0) == Some(Take(store, PAGE))
  {
    assert Rest(store, 0) == store;
  }

  lemma {:induction false} ServedFrom(query: Query<Note>, store: seq<State>, target: int)
    requires Truthful(query, store, PAGE) && SortedByCreated(store)
    requires EndsStamped(store) || !Select(store, target).InsufficientFunds?
    requires query(0, 0) == Some(Take(store, PAGE))
    requires TakePage(Take(store, PAGE), [], target) == Paged(store, Select(store, target))
    requires Select(store, target).InsufficientFunds? ==>
      Take(store, PAGE) == store && Select(store, target) == InsufficientFunds(Sum(store))
    ensures var r := Serve(query, 0, 0, [], target);
      r == Select(store, target) || (r.QueryFailed? && !Answers(query))
  {
    if store != [] && Select(store, target).InsufficientFunds? {
      SecondPageEmpty(query, store, target);
    }
  }

  /** An unstamped store is served from its start every time: funds never run out. */
  lemma {:induction false} NeverRunsDry(query: Query<Note>, n: nat, last: int, taken: seq<State>, store: seq<State>,
                                        target: int)
    requires Honest(query, store, PAGE) && SortedByCreated(store)
    requires store != [] && store[|store| - 1].created <= 0 && last <= 0 && |taken| < MAX_INPUT_COUNT
    ensures !Serve(query, n, last, taken, target).InsufficientFunds?
    decreases MAX_INPUT_COUNT - |taken|
  {
    var page := Take(store, PAGE);
    assert query(n, last) == Some(page);
    var p := TakePage(page, taken, target);
    if p.Taken? {
      NeverRunsDry(query, n + 1, page[|page| - 1].created, p.states, store, target);
    }
  }

  lemma {:induction false} FirstPage(store: seq<State>, target: int)
    ensures TakePage(Take(store, PAGE), [], target) == Paged(store, Select(store, target))
    ensures Select(store, target).InsufficientFunds? ==>
      Take(store, PAGE) == store && Select(store, target) == InsufficientFunds(Sum(store))
  {
    var page := Take(store, PAGE);
    assert store[..0] == [] && store[0..|page|] == page;
    PageIsSelect(store, target, 0, |page|);
  }

  lemma {:induction false} SecondPageEmpty(query: Query<Note>, store: seq<State>, target: int)
    requires Truthful(query, store, PAGE) && SortedByCreated(store)
    requires 0 < |store| < MAX_INPUT_COUNT && store[|store| - 1].created > 0
    ensures Serve(query, 1, store[|store| - 1].created, store, target)
         == if query(1, store[|store| - 1].created).Some? then InsufficientFunds(Sum(store)) else QueryFailed
  {
    var last := store[|store| - 1].created;
    NewerIsSuffix(store, last);
    if query(1, last).Some? {
      assert query(1, last).value == Take(Rest(store, last), PAGE);
    }
  }

  lemma {:induction false} TakeNext(store: seq<State>, target: int, k: nat, end: nat)
    requires k < end <= |store| && k < MAX_INPUT_COUNT
    ensures var more := store[..k + 1];
      TakePage(store[k..end], store[..k], target)
      == if store[k].data.None? then Done(InvalidNote(store[k].id))
         else if Sum(more) >= target then Done(Selected(more, Sum(more)))
         else if k + 1 >= MAX_INPUT_COUNT then Done(MaxNotesReached)
         else TakePage(store[k + 1..end], more, target)
  {
    var page := store[k..end];
    assert page[0] == store[k] && page[1..] == store[k + 1..end];
    assert store[..k] + [page[0]] == store[..k + 1];
  }

  lemma {:induction false} SelectNext(store: seq<State>, target: int, k: nat)
    requires k < |store|
    ensures var more := store[..k + 1];
      SelectFrom(store, target, k)
      == if store[k].data.None? then InvalidNote(store[k].id)
         else if Sum(more) >= target then Selected(more, Sum(more))
         else if k + 1 >= MAX_INPUT_COUNT then MaxNotesReached
         else SelectFrom(store, target, k + 1)
  {
  }

  lemma {:induction false} PageAtEnd(store: seq<State>, target: int)
    requires |store| < MAX_INPUT_COUNT
    ensures TakePage(store[|store|..|store|], store[..|store|], target) == Taken(store)
    ensures SelectFrom(store, target, |store|) == InsufficientFunds(Sum(store))
  {
    assert store[..|store|] == store;
  }

  /** What a page that ends the store, or the taking, leads to. */
  function Paged(store: seq<State>, outcome: Outcome): Progress
  {
    if outcome.InsufficientFunds? then Taken(store) else Done(outcome)
  }

  ghost predicate PageAgrees(store: seq<State>, target: int, k: nat, end: nat)
    requires k <= end <= |store| && k < MAX_INPUT_COUNT
  {
    var outcome := SelectFrom(store, target, k);
    TakePage(store[k..end], store[..k], target) == Paged(store, outcome)
      && (outcome.InsufficientFunds? ==> outcome.sum == Sum(store))
  }

  predicate Undecided(store: seq<State>, target: int, k: nat)
    requires k < |store|
  {
    store[k].data.Some? && Sum(store[..k + 1]) < target && k + 1 < MAX_INPUT_COUNT
  }

  lemma {:induction false} PageStep(store: seq<State>, target: int, k: nat, end: nat)
    requires k < end <= |store| && k < MAX_INPUT_COUNT
    requires Undecided(store, target, k) ==> PageAgrees(store, target, k + 1, end)
    ensures PageAgrees(store, target, k, end)
  {
    TakeNext(store, target, k, end);
    SelectNext(store, target, k);
  }

  /** Taking the states from `k` to `end` in one page is selecting through them. */
  lemma {:induction false} PageIsSelect(store: seq<State>, target: int, k: nat, end: nat)
    requires k <= end <= |store| && k < MAX_INPUT_COUNT
    requires end == |store| || end >= MAX_INPUT_COUNT
    ensures PageAgrees(store, target, k, end)
    decreases end - k
  {
    if k == end {
      PageAtEnd(store, target);
    } else {
      if Undecided(store, target, k) {
        PageIsSelect(store, target, k + 1, end);
      }
      PageStep(store, target, k, end);
    }
  }

  /** An unstamped note is read again with every page: one note of 5 is taken twice to cover
    * 10. */
  lemma {:induction false} UnstampedNoteTakenTwice(query: Query<Note>, note: Note)
    requires note.value == 5 && Honest(query, [Row(7, 0, Some(note))], PAGE)
    ensures var s := Row(7, 0, Some(note)); Serve(query, 0, 0, [], 10) == Selected([s, s], 10)
  {
    var s := Row(7, 0, Some(note));
    assert query(0, 0) == Some([s]) && query(1, 0) == Some([s]);
    SumSnoc([], s);
    SumSnoc([s], s);
    assert [] + [s] == [s] && [s] + [s] == [s, s];
    assert TakePage([s], [], 10) == Taken([s]);
    assert TakePage([s], [s], 10) == Done(Selected([s, s], 10));
  }

  // ---------------------------------------------------------------------------
  // The implementation
  // ---------------------------------------------------------------------------

  /** Pages through the query until the notes taken reach the target. */
  method PrepareInputsForTransfer(query: Query<Note>, target: int) returns (r: Outcome)
    ensures r == Serve(query, 0, 0, [], target)
    ensures r.Selected? ==> 1 <= |r.states| <= MAX_INPUT_COUNT && ShortestCover(r.states, target, |r.states|)
    ensures r.Selected? ==> Decodable(r.states) && r.total == Sum(r.states)
  {
    var lastCreated: int := 0;
    var sum: nat := 0;
    var notes: seq<State> := [];
    var n: nat := 0;
    ServedCover(query, 0, 0, [], target);
    while true
      invariant |notes| < MAX_INPUT_COUNT && sum == Sum(notes)
      invariant Serve(query, 0, 0, [], target) == Serve(query, n, lastCreated, notes, target)
      decreases MAX_INPUT_COUNT - |notes|
    {
      var res := query(n, lastCreated);
      if res.None? {
        return QueryFailed;
      }
      if |res.value| == 0 {
        return InsufficientFunds(sum);
      }
      ghost var page, taken := res.value, notes;
      for i := 0 to |res.value|
        invariant |notes| == |taken| + i < MAX_INPUT_COUNT && sum == Sum(notes)
        invariant i > 0 ==> lastCreated == page[i - 1].created
        invariant TakePage(page, taken, target) == TakePage(page[i..], notes, target)
      {
        var state := res.value[i];
        assert page[i..][1..] == page[i + 1..];
        lastCreated := state.created;
        if state.data.None? {
          return InvalidNote(state.id);
        }
        SumSnoc(notes, state);
        sum := sum + state.data.value.value;
        notes := notes + [state];
        if sum >= target {
          return Selected(notes, sum);
        }
        if |notes| >= MAX_INPUT_COUNT {
          return MaxNotesReached;
        }
      }
      assert page[|page|..] == [];
      n := n + 1;
    }
  }

  // ---------------------------------------------------------------------------
  // Balances
  // ---------------------------------------------------------------------------

  const BALANCE_LIMIT: nat := 1000

  datatype Balance = Balance(count: nat, total: nat, overflow: bool) | BadNote(id: nat) | NoBalance

  /** Adds up one page of the owner's notes, of every token. */
  method AccountBalance(query: Query<Note>) returns (r: Balance)
    ensures r.NoBalance? <==> query(0, 0).None?
    ensures r.Balance? <==> query(0, 0).Some? && Decodable(query(0, 0).value)
    ensures r.BadNote? ==> exists i ::
      0 <= i < |query(0, 0).value| && Decodable(query(0, 0).value[..i])
      && query(0, 0).value[i].data.None? && query(0, 0).value[i].id == r.id
    ensures r.Balance? ==>
      r == Balance(|query(0, 0).value|, Sum(query(0, 0).value), |query(0, 0).value| == BALANCE_LIMIT)
  {
    var res := query(0, 0);
    if res.None? {
      return NoBalance;
    }
    var rows, total := res.value, 0;
    for i := 0 to |rows|
      invariant Decodable(rows[..i]) && total == Sum(rows[..i])
    {
      if rows[i].data.None? {
        return BadNote(rows[i].id);
      }
      assert rows[..i + 1] == rows[..i] + [rows[i]];
      SumSnoc(rows[..i], rows[i]);
      total := total + rows[i].data.value.value;
    }
    assert rows[..|rows|] == rows;
    r := Balance(|rows|, total, |rows| == BALANCE_LIMIT);
  }

  /** On an honest store, a balance without overflow is the whole balance; with overflow, at
    * least a thousand notes are there and it is a lower bound. */
  lemma {:induction false} BalanceExactly(query: Query<Note>, store: seq<State>)
    requires Honest(query, store, BALANCE_LIMIT)
    ensures query(0, 0).Some? && (|query(0, 0).value| == 1000 <==> |store| >= 1000)
    ensures |query(0, 0).value| < 1000 ==> Sum(query(0, 0).value) == Sum(store)
    ensures Sum(query(0, 0).value) <= Sum(store)
  {
    assert query(0, 0) == Some(Take(Rest(store, 0), BALANCE_LIMIT));
    PrefixSum(store, if |store| <= BALANCE_LIMIT then |store| else BALANCE_LIMIT);
    assert store[..|store|] == store;
  }

  lemma {:induction false} PrefixSum(states: seq<State>, n: nat)
    requires n <= |states|
    ensures Sum(states[..n]) <= Sum(states)
  {
    if n < |states| {
      PrefixSum(states[..|states| - 1], n);
      assert states[..|states| - 1][..n] == states[..n];
    } else {
      assert states[..n] == states;
    }
  }
}
