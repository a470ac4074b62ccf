/** The token-budgeted reduce loop of the `llm_reduce` aggregate
    (src/functions/aggregate/llm_reduce/implementation.cpp).

    Each round starts from the batch carried over from the previous round
    (empty in the first round), admits input tuples left to right for as
    long as they fit the token budget, sends the batch to the model, and
    carries the single response into the next round. The loop ends once
    every input tuple has been admitted; its result is the last response.

    The tokenizer, the JSON and markdown serializers used for counting, and
    `ReduceBatch` (render the prompt, call the model, take its `"output"`)
    are not part of this model; they are the fields of `Collaborators`.
 */
module LlmReduce {
  import opened Results

  const FixedTokensError := "Fixed tokens exceed model context size"

  /** The external functions the loop consults. */
  datatype Collaborators<!J> = Collaborators(
    countTokens: string -> nat,   // Tiktoken::GetNumTokens
    dump: seq<J> -> string,       // the batch's JSON text, batch_tuples.dump()
    markdownHeader: J -> string,  // PromptManager::ConstructMarkdownHeader
    markdownTuple: J -> string,   // PromptManager::ConstructMarkdownSingleTuple
    reduceBatch: seq<J> -> J)     // LlmReduce::ReduceBatch

  /** `GetAvailableTokens`: the budget left once the user query and the
      reduce template are counted. Using the whole context window is
      allowed; exceeding it is an error. */
  function GetAvailableTokens<J(!new)>(c: Collaborators<J>, userQuery: string, reduceTemplate: string,
                                 contextWindow: int): (r: Result<nat>)
    ensures var fixed := c.countTokens(userQuery) + c.countTokens(reduceTemplate);
            && (r.Err? <==> fixed > contextWindow)
            && (r.Err? ==> r.error == FixedTokensError)
            && (r.Ok? ==> fixed + r.value == contextWindow)
  {
    var fixed := c.countTokens(userQuery) + c.countTokens(reduceTemplate);
    if fixed > contextWindow then Err(FixedTokensError) else Ok(contextWindow - fixed)
  }

  // ---------------------------------------------------------------------
  // Token accounting

  /** Tokens of one tuple's markdown block. */
  function TupleCost<J(!new)>(c: Collaborators<J>, t: J): nat {
    c.countTokens(c.markdownTuple(t))
  }

  /** Tokens of a run of tuple blocks. */
  function CostOf<J(!new)>(c: Collaborators<J>, ts: seq<J>): nat {
    if ts == [] then 0 else TupleCost(c, ts[0]) + CostOf(c, ts[1..])
  }

  lemma {:induction false} CostOfSnoc<J(!new)>(c: Collaborators<J>, ts: seq<J>, t: J)
    ensures CostOf(c, ts + [t]) == CostOf(c, ts) + TupleCost(c, t)
    decreases |ts|
  {
    if ts != [] {
      assert (ts + [t])[1..] == ts[1..] + [t];
      CostOfSnoc(c, ts[1..], t);
    } else {
      assert CostOf(c, [t][1..]) == 0;
    }
  }

  /** The count a round starts from: the carried batch as JSON text, plus
      the markdown header of the next unconsumed tuple. */
  function OpeningCount<J(!new)>(c: Collaborators<J>, batch: seq<J>, next: J): nat {
    c.countTokens(c.dump(batch)) + c.countTokens(c.markdownHeader(next))
  }

  /** A tuple costing `cost` is admitted onto `accumulated` tokens: the count
      is still below the budget, and adding the tuple stays within it. */
  predicate Admits(available: nat, accumulated: nat, cost: nat) {
    accumulated < available && accumulated + cost <= available
  }

  /** The inner loop: starting at `start` with `accumulated` tokens, the
      cursor it stops at. */
  function Fill<J(!new)>(c: Collaborators<J>, tuples: seq<J>, available: nat, start: nat, accumulated: nat): (end: nat)
    requires start <= |tuples|
    ensures start <= end <= |tuples|
    decreases |tuples| - start
  {
    if start < |tuples| && Admits(available, accumulated, TupleCost(c, tuples[start])) then
      Fill(c, tuples, available, start + 1, accumulated + TupleCost(c, tuples[start]))
    else
      start
  }

  /** What the inner loop admits: every tuple it passes was admitted on the
      count so far, and the tuple it stops at (if any) was not. */
  lemma {:induction false} FillAdmitted<J(!new)>(c: Collaborators<J>, tuples: seq<J>, available: nat, start: nat, accumulated: nat)
    requires start <= |tuples|
    ensures var end := Fill(c, tuples, available, start, accumulated);
            && (forall k {:trigger CostOf(c, tuples[start..k])} :: start <= k < end ==>
                  Admits(available, accumulated + CostOf(c, tuples[start..k]), TupleCost(c, tuples[k])))
            && (end < |tuples| ==>
                  !Admits(available, accumulated + CostOf(c, tuples[start..end]), TupleCost(c, tuples[end])))
    decreases |tuples| - start
  {
    var end := Fill(c, tuples, available, start, accumulated);
    assert CostOf(c, tuples[start..start]) == 0;
    if start < |tuples| && Admits(available, accumulated, TupleCost(c, tuples[start])) {
      var cost := TupleCost(c, tuples[start]);
      FillAdmitted(c, tuples, available, start + 1, accumulated + cost);
      forall k | start < k <= end
        ensures accumulated + CostOf(c, tuples[start..k]) == accumulated + cost + CostOf(c, tuples[start + 1..k])
      {
        CostOfFront(c, tuples, start, k);
      }
    }
  }

  lemma CostOfFront<J(!new)>(c: Collaborators<J>, tuples: seq<J>, start: nat, k: nat)
    requires start < k <= |tuples|
    ensures CostOf(c, tuples[start..k]) == TupleCost(c, tuples[start]) + CostOf(c, tuples[start + 1..k])
  {
    assert tuples[start..k][1..] == tuples[start + 1..k];
  }

  /** Whatever a round admits fits: the opening count plus the admitted
      tuples' blocks never exceed the budget. */
  lemma FillWithinBudget<J(!new)>(c: Collaborators<J>, tuples: seq<J>, available: nat, start: nat, accumulated: nat)
    requires start <= |tuples|
    ensures var end := Fill(c, tuples, available, start, accumulated);
            end > start ==> accumulated + CostOf(c, tuples[start..end]) <= available
  {
    var end := Fill(c, tuples, available, start, accumulated);
    FillAdmitted(c, tuples, available, start, accumulated);
    if end > start {
      CostOfSnoc(c, tuples[start..end - 1], tuples[end - 1]);
      assert tuples[start..end - 1] + [tuples[end - 1]] == tuples[start..end];
    }
  }

  // ---------------------------------------------------------------------
  // Rounds

  /** The loop's state between rounds: the carried batch and the cursor
      `start_index`. */
  datatype ReduceState<J(!new)> = ReduceState(batch: seq<J>, cursor: nat)

  function Initial<J(!new)>(): ReduceState<J> {
    ReduceState([], 0)
  }

  /** One round of the outer loop. */
  function Step<J(!new)>(c: Collaborators<J>, tuples: seq<J>, available: nat, s: ReduceState<J>): (next: ReduceState<J>)
    requires s.cursor < |tuples|
    ensures s.cursor <= next.cursor <= |tuples|
    ensures next.batch == [c.reduceBatch(s.batch + tuples[s.cursor..next.cursor])]
  {
    var end := Fill(c, tuples, available, s.cursor, OpeningCount(c, s.batch, tuples[s.cursor]));
    ReduceState([c.reduceBatch(s.batch + tuples[s.cursor..end])], end)
  }

  /** The state after at most `n` rounds (fewer if the loop ends first). */
  function Iterate<J(!new)>(c: Collaborators<J>, tuples: seq<J>, available: nat, s: ReduceState<J>, n: nat): (t: ReduceState<J>)
    requires s.cursor <= |tuples|
    ensures s.cursor <= t.cursor <= |tuples|
    decreases n
  {
    if n == 0 || s.cursor == |tuples| then s
    else Iterate(c, tuples, available, Step(c, tuples, available, s), n - 1)
  }

  /** The loop run from `s` is done within `fuel` rounds. A run of the
      source that returns at all satisfies this for its number of rounds. */
  predicate Ends<J(!new)>(c: Collaborators<J>, tuples: seq<J>, available: nat, s: ReduceState<J>, fuel: nat) {
    s.cursor <= |tuples| && Iterate(c, tuples, available, s, fuel).cursor == |tuples|
  }

  /** What one round did: the cursor it started at, the batch it carried in,
      the tuples it admitted (none, if the first did not fit), and the
      response it carries out. */
  datatype Round<J(!new)> = Round(start: nat, carried: seq<J>, admitted: seq<J>, response: J)

  function RoundOf<J(!new)>(c: Collaborators<J>, tuples: seq<J>, available: nat, s: ReduceState<J>): Round<J>
    requires s.cursor < |tuples|
  {
    var next := Step(c, tuples, available, s);
    Round(s.cursor, s.batch, tuples[s.cursor..next.cursor], next.batch[0])
  }

  /** The rounds the loop runs from state `s`, at most `fuel` of them. */
  function Rounds<J(!new)>(c: Collaborators<J>, tuples: seq<J>, available: nat, s: ReduceState<J>, fuel: nat): (rs: seq<Round<J>>)
    requires s.cursor <= |tuples|
    ensures |rs| <= fuel
    decreases fuel
  {
    if fuel == 0 || s.cursor == |tuples| then []
    else [RoundOf(c, tuples, available, s)] + Rounds(c, tuples, available, Step(c, tuples, available, s), fuel - 1)
  }

  /** All tuples the rounds admitted, round after round. */
  function AllAdmitted<J(!new)>(rs: seq<Round<J>>): seq<J> {
    if rs == [] then [] else rs[0].admitted + AllAdmitted(rs[1..])
  }

  /** A round's own guarantees: it starts at an unconsumed tuple and admits
      the tuples that follow it in the input; if it admitted any, the opening
      count plus their blocks fit the budget; and its response is the
      model's answer to the carried batch followed by the admitted tuples. */
  ghost predicate RoundSound<J(!new)>(c: Collaborators<J>, tuples: seq<J>, available: nat, r: Round<J>) {
    && r.start + |r.admitted| <= |tuples|
    && r.start < |tuples|
    && r.admitted == tuples[r.start..r.start + |r.admitted|]
    && (r.admitted != [] ==> OpeningCount(c, r.carried, tuples[r.start]) + CostOf(c, r.admitted) <= available)
    && r.response == c.reduceBatch(r.carried + r.admitted)
  }

  /** Greedy batching: a round that left tuples unconsumed stopped because
      the first of them did not fit on top of what it had admitted. */
  ghost predicate Greedy<J(!new)>(c: Collaborators<J>, tuples: seq<J>, available: nat, r: Round<J>)
  {
    r.start < |tuples| && r.start + |r.admitted| < |tuples| ==>
      !Admits(available, OpeningCount(c, r.carried, tuples[r.start]) + CostOf(c, r.admitted),
              TupleCost(c, tuples[r.start + |r.admitted|]))
  }

  /** One round on its own: it is sound and greedy, it starts at the
      state's cursor with its batch, and the next state's cursor and batch
      are where it stopped and what it answered. */
  lemma RoundOfSound<J(!new)>(c: Collaborators<J>, tuples: seq<J>, available: nat, s: ReduceState<J>)
    requires s.cursor < |tuples|
    ensures var r := RoundOf(c, tuples, available, s);
            var next := Step(c, tuples, available, s);
            && r.start == s.cursor && r.carried == s.batch
            && RoundSound(c, tuples, available, r) && Greedy(c, tuples, available, r)
            && next.cursor == r.start + |r.admitted| && next.batch == [r.response]
  {
    var next := Step(c, tuples, available, s);
    var opening := OpeningCount(c, s.batch, tuples[s.cursor]);
    FillWithinBudget(c, tuples, available, s.cursor, opening);
    FillAdmitted(c, tuples, available, s.cursor, opening);
    assert next.batch == [next.batch[0]];
  }

  /** The state after `k + 1` rounds is one round past the state after
      `k`, while tuples are left. */
  lemma {:induction false} IterateSucc<J(!new)>(c: Collaborators<J>, tuples: seq<J>, available: nat,
                                                s: ReduceState<J>, k: nat)
    requires s.cursor <= |tuples| && Iterate(c, tuples, available, s, k).cursor < |tuples|
    ensures Iterate(c, tuples, available, s, k + 1)
         == Step(c, tuples, available, Iterate(c, tuples, available, s, k))
    decreases k
  {
    if k > 0 {
      IterateSucc(c, tuples, available, Step(c, tuples, available, s), k - 1);
    }
  }

  /** A trace with a `k`-th round has a first round, and its `k`-th round
      is the `k - 1`-th of the trace from the next state. */
  lemma RoundsCons<J(!new)>(c: Collaborators<J>, tuples: seq<J>, available: nat,
                            s: ReduceState<J>, fuel: nat, k: nat)
    requires s.cursor <= |tuples| && k < |Rounds(c, tuples, available, s, fuel)|
    ensures fuel > 0 && s.cursor < |tuples|
    ensures k == 0 ==> Rounds(c, tuples, available, s, fuel)[k] == RoundOf(c, tuples, available, s)
    ensures k > 0 ==>
              && k - 1 < |Rounds(c, tuples, available, Step(c, tuples, available, s), fuel - 1)|
              && Rounds(c, tuples, available, s, fuel)[k]
                 == Rounds(c, tuples, available, Step(c, tuples, available, s), fuel - 1)[k - 1]
              && Iterate(c, tuples, available, s, k)
                 == Iterate(c, tuples, available, Step(c, tuples, available, s), k - 1)
  {
  }

  /** The `k`-th round of the trace is the round the loop runs from the
      state it reaches after `k` rounds. */
  lemma {:induction false} RoundsAt<J(!new)>(c: Collaborators<J>, tuples: seq<J>, available: nat,
                                             s: ReduceState<J>, fuel: nat, k: nat)
    requires s.cursor <= |tuples| && k < |Rounds(c, tuples, available, s, fuel)|
    ensures Iterate(c, tuples, available, s, k).cursor < |tuples|
    ensures Rounds(c, tuples, available, s, fuel)[k] == RoundOf(c, tuples, available, Iterate(c, tuples, available, s, k))
    decreases k
  {
    RoundsCons(c, tuples, available, s, fuel, k);
    if k > 0 {
      RoundsAt(c, tuples, available, Step(c, tuples, available, s), fuel - 1, k - 1);
    }
  }

  /** Every round, wherever the run is cut off, is sound and greedy. */
  lemma RoundsSound<J(!new)>(c: Collaborators<J>, tuples: seq<J>, available: nat, s: ReduceState<J>, fuel: nat)
    requires s.cursor <= |tuples|
    ensures var rs := Rounds(c, tuples, available, s, fuel);
            forall k :: 0 <= k < |rs| ==>
              RoundSound(c, tuples, available, rs[k]) && Greedy(c, tuples, available, rs[k])
  {
    var rs := Rounds(c, tuples, available, s, fuel);
    forall k | 0 <= k < |rs|
      ensures RoundSound(c, tuples, available, rs[k]) && Greedy(c, tuples, available, rs[k])
    {
      RoundsAt(c, tuples, available, s, fuel, k);
      RoundOfSound(c, tuples, available, Iterate(c, tuples, available, s, k));
    }
  }

  /** The rounds form a chain: the first starts at the state's cursor with
      its batch, and each later round starts right after the previous
      round's tuples and carries in exactly its response. */
  lemma RoundsLinked<J(!new)>(c: Collaborators<J>, tuples: seq<J>, available: nat, s: ReduceState<J>, fuel: nat)
    requires s.cursor <= |tuples|
    ensures var rs := Rounds(c, tuples, available, s, fuel);
            && (|rs| > 0 ==> rs[0].start == s.cursor && rs[0].carried == s.batch)
            && (forall k :: 0 <= k < |rs| - 1 ==>
                  rs[k + 1].start == rs[k].start + |rs[k].admitted| && rs[k + 1].carried == [rs[k].response])
  {
    var rs := Rounds(c, tuples, available, s, fuel);
    if |rs| > 0 {
      RoundsAt(c, tuples, available, s, fuel, 0);
    }
    forall k | 0 <= k < |rs| - 1
      ensures rs[k + 1].start == rs[k].start + |rs[k].admitted| && rs[k + 1].carried == [rs[k].response]
    {
      var here := Iterate(c, tuples, available, s, k);
      RoundsAt(c, tuples, available, s, fuel, k);
      RoundsAt(c, tuples, available, s, fuel, k + 1);
      IterateSucc(c, tuples, available, s, k);
      RoundOfSound(c, tuples, available, here);
    }
  }

  /** Conservation and order: in a run that ends, the admitted tuples of all
      rounds, in round order, are exactly the unconsumed input, each once. */
  lemma {:induction false} RoundsConserve<J(!new)>(c: Collaborators<J>, tuples: seq<J>, available: nat,
                                                   s: ReduceState<J>, fuel: nat)
    requires Ends(c, tuples, available, s, fuel)
    ensures AllAdmitted(Rounds(c, tuples, available, s, fuel)) == tuples[s.cursor..]
    decreases fuel
  {
    if fuel > 0 && s.cursor < |tuples| {
      var next := Step(c, tuples, available, s);
      RoundsConserve(c, tuples, available, next, fuel - 1);
      var rs := Rounds(c, tuples, available, s, fuel);
      assert rs[1..] == Rounds(c, tuples, available, next, fuel - 1);
      assert tuples[s.cursor..next.cursor] + tuples[next.cursor..] == tuples[s.cursor..];
    }
  }

  /** A run that ends within `fuel` rounds is the same run with any larger
      bound: the bound only has to be large enough, its value is irrelevant. */
  lemma {:induction false} RoundsFuelIrrelevant<J(!new)>(c: Collaborators<J>, tuples: seq<J>, available: nat,
                                                         s: ReduceState<J>, fuel: nat, more: nat)
    requires Ends(c, tuples, available, s, fuel) && fuel <= more
    ensures Iterate(c, tuples, available, s, more) == Iterate(c, tuples, available, s, fuel)
    ensures Rounds(c, tuples, available, s, more) == Rounds(c, tuples, available, s, fuel)
    decreases fuel
  {
    if fuel > 0 && s.cursor < |tuples| {
      RoundsFuelIrrelevant(c, tuples, available, Step(c, tuples, available, s), fuel - 1, more - 1);
    }
  }

  /** In a run that starts with tuples left and ends, there is at least one
      round, and the final state carries the last round's response alone. */
  lemma {:induction false} LastRoundCarriesOut<J(!new)>(c: Collaborators<J>, tuples: seq<J>, available: nat,
                                                        s: ReduceState<J>, fuel: nat)
    requires Ends(c, tuples, available, s, fuel) && s.cursor < |tuples|
    ensures var rs := Rounds(c, tuples, available, s, fuel);
            |rs| > 0 && Iterate(c, tuples, available, s, fuel).batch == [rs[|rs| - 1].response]
    decreases fuel
  {
    var next := Step(c, tuples, available, s);
    var rs := Rounds(c, tuples, available, s, fuel);
    assert rs == [RoundOf(c, tuples, available, s)] + Rounds(c, tuples, available, next, fuel - 1);
    if next.cursor < |tuples| {
      LastRoundCarriesOut(c, tuples, available, next, fuel - 1);
    } else {
      assert next.batch == [next.batch[0]];
    }
  }

  /** Admitting the tuple at `start` moves the inner loop on by one. */
  lemma FillAdmits<J(!new)>(c: Collaborators<J>, tuples: seq<J>, available: nat, start: nat, accumulated: nat)
    requires start < |tuples|
    requires Admits(available, accumulated, TupleCost(c, tuples[start]))
    ensures Fill(c, tuples, available, start, accumulated)
         == Fill(c, tuples, available, start + 1, accumulated + TupleCost(c, tuples[start]))
  {
  }

  /** Where the inner loop's condition fails, it stops. */
  lemma FillStops<J(!new)>(c: Collaborators<J>, tuples: seq<J>, available: nat, start: nat, accumulated: nat)
    requires start <= |tuples|
    requires start < |tuples| ==> !Admits(available, accumulated, TupleCost(c, tuples[start]))
    ensures Fill(c, tuples, available, start, accumulated) == start
  {
  }

  // ---------------------------------------------------------------------
  // The loop

  /** One pass of the outer loop's body: count the carried batch and the
      next tuple's header, admit tuples while they fit, and send the batch
      to the model. It computes exactly `Step`. */
  method ReduceRound<J(!new)>(c: Collaborators<J>, tuples: seq<J>, available: nat, batch: seq<J>, start: nat)
    returns (response: J, end: nat)
    requires start < |tuples|
    ensures ReduceState([response], end) == Step(c, tuples, available, ReduceState(batch, start))
  {
    var current := batch;
    var accumulated: nat := c.countTokens(c.dump(batch)) + c.countTokens(c.markdownHeader(tuples[start]));
    ghost var opening := accumulated;
    end := start;
    while accumulated < available && end < |tuples|
      invariant start <= end <= |tuples|
      invariant current == batch + tuples[start..end]
      invariant Fill(c, tuples, available, end, accumulated) == Fill(c, tuples, available, start, opening)
      decreases |tuples| - end
    {
      var numTokens := c.countTokens(c.markdownTuple(tuples[end]));
      if accumulated + numTokens > available {
        break;
      }
      FillAdmits(c, tuples, available, end, accumulated);
      AppendNext(batch, tuples, start, end);
      current := current + [tuples[end]];
      accumulated := accumulated + numTokens;
      end := end + 1;
    }
    FillStops(c, tuples, available, end, accumulated);
    response := c.reduceBatch(current);
  }

  /** Pushing the next tuple onto a batch extends the admitted slice. */
  lemma AppendNext<T>(batch: seq<T>, ts: seq<T>, start: nat, end: nat)
    requires start <= end < |ts|
    ensures batch + ts[start..end] + [ts[end]] == batch + ts[start..end + 1]
  {
    assert ts[start..end + 1] == ts[start..end] + [ts[end]];
  }

  /** The outer loop on a known budget, for a run that ends within `fuel`
      rounds: rounds run until the cursor reaches the end, and the last
      response is the result. `fuel` is ghost; the loop does not consult it. */
  method RunRounds<J(!new)>(c: Collaborators<J>, tuples: seq<J>, available: nat, ghost fuel: nat) returns (last: J)
    requires |tuples| > 0 && Ends(c, tuples, available, Initial(), fuel)
    ensures var rs := Rounds(c, tuples, available, Initial(), fuel);
            |rs| > 0 && last == rs[|rs| - 1].response
  {
    var batch: seq<J> := [];
    var start: nat := 0;
    ghost var left := fuel;
    ghost var started := false;
    // The source's do-while: the first round always runs because the input
    // is non-empty, so testing the condition first changes nothing.
    while start < |tuples|
      invariant start <= |tuples|
      invariant Iterate(c, tuples, available, ReduceState(batch, start), left)
             == Iterate(c, tuples, available, Initial(), fuel)
      invariant started ==> |batch| == 1
      invariant !started ==> batch == [] && start == 0 && left == fuel
      decreases left
    {
      assert left > 0;
      var response, end := ReduceRound(c, tuples, available, batch, start);
      batch, start := [response], end;
      left, started := left - 1, true;
    }
    LastRoundCarriesOut(c, tuples, available, Initial(), fuel);
    last := batch[0];
  }

  /** `ReduceLoop`. The source reads `tuples[0]` in the first round, so the
      input must be non-empty; and it returns only once the cursor reaches
      the end, which some inputs never do (`OversizedTupleNeverConsumed`).
      The model covers every run that returns: `fuel` bounds its number of
      rounds. The result is the response of the last round. */
  method ReduceLoop<J(!new)>(c: Collaborators<J>, userQuery: string, reduceTemplate: string, contextWindow: int,
                       tuples: seq<J>, ghost fuel: nat) returns (r: Result<J>)
    requires |tuples| > 0
    requires GetAvailableTokens(c, userQuery, reduceTemplate, contextWindow).Ok? ==>
               Ends(c, tuples, GetAvailableTokens(c, userQuery, reduceTemplate, contextWindow).value, Initial(), fuel)
    ensures GetAvailableTokens(c, userQuery, reduceTemplate, contextWindow).Err? ==> r == Err(FixedTokensError)
    ensures GetAvailableTokens(c, userQuery, reduceTemplate, contextWindow).Ok? ==>
              var rs := Rounds(c, tuples, GetAvailableTokens(c, userQuery, reduceTemplate, contextWindow).value,
                               Initial(), fuel);
              |rs| > 0 && r == Ok(rs[|rs| - 1].response)
  {
    var available :- GetAvailableTokens(c, userQuery, reduceTemplate, contextWindow);
    var last := RunRounds(c, tuples, available, fuel);
    return Ok(last);
  }

  // ---------------------------------------------------------------------
  // Runs that stall

  /** A round that admits nothing leaves the cursor where it was and sends
      only the carried batch to the model; the next round starts again at
      the same tuple, now carrying that response. */
  lemma StalledRoundRepeats<J(!new)>(c: Collaborators<J>, tuples: seq<J>, available: nat, s: ReduceState<J>)
    requires s.cursor < |tuples|
    requires !Admits(available, OpeningCount(c, s.batch, tuples[s.cursor]), TupleCost(c, tuples[s.cursor]))
    ensures Step(c, tuples, available, s) == ReduceState([c.reduceBatch(s.batch)], s.cursor)
  {
    assert s.batch + tuples[s.cursor..s.cursor] == s.batch;
  }

  /** A run that stalls and still ends. Tokens are characters, the carried
      batch's text is its response, headers are empty, and the model
      answers "zz" to `["a"]` and "" otherwise. With a budget of 2 over
      `["a", "bb"]`, the first round admits "a"; the second carries "zz",
      which fills the budget, so it admits nothing; the third carries "" and
      admits "bb". */
  lemma StallThenEnd()
    ensures var c := Collaborators((s: string) => |s|, (b: seq<string>) => if |b| == 1 then b[0] else "",
                                   (t: string) => "", (t: string) => t,
                                   (b: seq<string>) => if b == ["a"] then "zz" else "");
            var tuples := ["a", "bb"];
            && Iterate(c, tuples, 2, Initial(), 1) == ReduceState(["zz"], 1)
            && Iterate(c, tuples, 2, Initial(), 2) == ReduceState([""], 1)
            && Ends(c, tuples, 2, Initial(), 3)
  {
    var c := Collaborators((s: string) => |s|, (b: seq<string>) => if |b| == 1 then b[0] else "",
                           (t: string) => "", (t: string) => t,
                           (b: seq<string>) => if b == ["a"] then "zz" else "");
    var tuples := ["a", "bb"];
    var s0: ReduceState<string> := Initial();
    assert Fill(c, tuples, 2, 1, 1) == 1;
    assert Fill(c, tuples, 2, 0, 0) == 1;
    assert tuples[0..1] == ["a"];
    var s1 := Step(c, tuples, 2, s0);
    assert s1 == ReduceState(["zz"], 1);
    assert Fill(c, tuples, 2, 1, 2) == 1;
    var s2 := Step(c, tuples, 2, s1);
    assert s2 == ReduceState([""], 1);
    assert Fill(c, tuples, 2, 2, 2) == 2;
    assert Fill(c, tuples, 2, 1, 0) == 2;
    var s3 := Step(c, tuples, 2, s2);
    assert s3.cursor == 2;
    assert Iterate(c, tuples, 2, s2, 1) == s3;
    assert Iterate(c, tuples, 2, s1, 2) == s3;
  }

  /** With a budget of zero, which `GetAvailableTokens` returns when the
      fixed prompt fills the context window exactly, no round admits
      anything. */
  lemma ZeroBudgetNeverAdmits<J(!new)>(c: Collaborators<J>, tuples: seq<J>, s: ReduceState<J>)
    requires s.cursor < |tuples|
    ensures Step(c, tuples, 0, s).cursor == s.cursor
  {
  }

  /** A tuple whose block alone exceeds the budget is never admitted: the
      cursor never passes it, however many rounds run, so the loop never
      ends. */
  lemma {:induction false} OversizedTupleNeverConsumed<J(!new)>(c: Collaborators<J>, tuples: seq<J>, available: nat,
                                                         s: ReduceState<J>, i: nat, n: nat)
    requires s.cursor <= i < |tuples|
    requires TupleCost(c, tuples[i]) > available
    ensures Iterate(c, tuples, available, s, n).cursor <= i
    ensures !Ends(c, tuples, available, s, n)
    decreases n
  {
    if n > 0 && s.cursor < |tuples| {
      var next := Step(c, tuples, available, s);
      FillAdmitted(c, tuples, available, s.cursor, OpeningCount(c, s.batch, tuples[s.cursor]));
      var admittedBefore := CostOf(c, tuples[s.cursor..i]);
      assert next.cursor <= i;
      OversizedTupleNeverConsumed(c, tuples, available, next, i, n - 1);
    }
  }
}
