/**
 * The generation loop as a specification: the attempts it makes, what each
 * attempt asks for and what it adds. The language model is an input that
 * answers the prompts of each attempt with optional text and a token count;
 * the random choice of each attempt's reference questions is an input too.
 */
module Generation {
  import opened Wrappers
  import opened Seqs
  import opened Parser
  import opened Prompt
  import opened Loader

  const MaxRetries: nat := 5

  /** The language model's answer to one call: its text (none when the call failed) and the tokens it used. */
  datatype Reply = Reply(text: Option<string>, tokens: nat)

  /** The truth value of the reply text as the loop tests it: present and not empty. */
  predicate HasText(reply: Reply) {
    reply.text.Some? && reply.text.value != []
  }

  /** One attempt: how many questions it asked for, with which references and prompts, what came back and what was parsed. */
  datatype Attempt = Attempt(needed: nat, references: seq<string>, prompts: Prompts, reply: Reply, batch: seq<Record>)

  /** The caller's inputs to one run of the loop. */
  datatype Setting = Setting(subject: string, numToGenerate: nat, specificTopic: string, questionType: string)

  /** How many reference questions an attempt shows: 50, five per missing question, or all of them, whichever is least. */
  function SubsetSize(needed: nat, available: nat): (r: nat)
    ensures r <= QuestionsToSelect && r <= needed * 5 && r <= available
    ensures r == QuestionsToSelect || r == needed * 5 || r == available
  {
    var m := if QuestionsToSelect < needed * 5 then QuestionsToSelect else needed * 5;
    if m < available then m else available
  }

  /**
   * The attempt made with `got` questions generated so far, as the attempt
   * numbered `tries`: it asks for the questions still missing.
   */
  function NextAttempt(api: (nat, Prompts) -> Reply, picks: nat -> seq<nat>, series: seq<string>, s: Setting,
                       got: seq<Record>, tries: nat): Attempt
  {
    var needed := if |got| < s.numToGenerate then s.numToGenerate - |got| else 0;
    var references := Sample(series, picks(tries), SubsetSize(needed, |series|));
    var prompts := FormatPromptForGeneration(references, s.subject, needed, s.specificTopic, s.questionType);
    var reply := api(tries, prompts);
    var batch := if HasText(reply) then Parse(reply.text.value, s.questionType) else [];
    Attempt(needed, references, prompts, reply, batch)
  }

  /** The attempts of one run of the loop, for the model's and the random generator's answers. */
  function Step(api: (nat, Prompts) -> Reply, picks: nat -> seq<nat>, series: seq<string>, s: Setting)
    : (seq<Record>, nat) -> Attempt
  {
    (got: seq<Record>, tries: nat) => NextAttempt(api, picks, series, s, got, tries)
  }

  /**
   * The attempts of the loop from the state with `got` questions generated
   * and `tries` attempts counted, `step` giving each attempt: it goes on
   * while fewer than `num` questions are generated and fewer than five
   * attempts are counted, and the first reply without text ends it.
   */
  function Run(step: (seq<Record>, nat) -> Attempt, num: nat, got: seq<Record>, tries: nat): seq<Attempt>
    decreases MaxRetries - tries
  {
    if |got| < num && tries < MaxRetries then
      var a := step(got, tries);
      if HasText(a.reply) then [a] + Run(step, num, got + a.batch, tries + 1) else [a]
    else []
  }

  /** The questions the attempts add, batch after batch. */
  function Generated(attempts: seq<Attempt>): seq<Record>
    decreases |attempts|
  {
    if attempts == [] then [] else Generated(attempts[..|attempts| - 1]) + attempts[|attempts| - 1].batch
  }

  /** The tokens the attempts use. */
  function Tokens(attempts: seq<Attempt>): nat
    decreases |attempts|
  {
    if attempts == [] then 0 else Tokens(attempts[..|attempts| - 1]) + attempts[|attempts| - 1].reply.tokens
  }

  lemma GeneratedSnoc(attempts: seq<Attempt>, a: Attempt)
    ensures Generated(attempts + [a]) == Generated(attempts) + a.batch
    ensures Tokens(attempts + [a]) == Tokens(attempts) + a.reply.tokens
  {
    assert (attempts + [a])[..|attempts|] == attempts;
  }

  lemma {:induction false} GeneratedCons(a: Attempt, attempts: seq<Attempt>)
    ensures Generated([a] + attempts) == a.batch + Generated(attempts)
    decreases |attempts|
  {
    if attempts != [] {
      var init := attempts[..|attempts| - 1];
      assert ([a] + attempts)[..|attempts|] == [a] + init;
      GeneratedCons(a, init);
    }
  }

  /** The loop makes at most five attempts in all. */
  lemma {:induction false} RunBounded(step: (seq<Record>, nat) -> Attempt, num: nat, got: seq<Record>, tries: nat)
    requires tries <= MaxRetries
    ensures |Run(step, num, got, tries)| <= MaxRetries - tries
    decreases MaxRetries - tries
  {
    if |got| < num && tries < MaxRetries {
      var a := step(got, tries);
      if HasText(a.reply) {
        RunBounded(step, num, got + a.batch, tries + 1);
      }
    }
  }

  /**
   * Attempt k of a run is the step taken from the questions generated
   * before it, while too few are generated and fewer than five attempts are
   * counted; every attempt but the last got a reply with text.
   */
  predicate AttemptFits(step: (seq<Record>, nat) -> Attempt, num: nat, got: seq<Record>, tries: nat,
                        attempts: seq<Attempt>, k: nat)
    requires k < |attempts|
  {
    var before := got + Generated(attempts[..k]);
    && |before| < num
    && tries + k < MaxRetries
    && attempts[k] == step(before, tries + k)
    && (k < |attempts| - 1 ==> HasText(attempts[k].reply))
  }

  lemma {:induction false} RunAttempts(step: (seq<Record>, nat) -> Attempt, num: nat, got: seq<Record>, tries: nat, k: nat)
    requires k < |Run(step, num, got, tries)|
    ensures AttemptFits(step, num, got, tries, Run(step, num, got, tries), k)
    decreases MaxRetries - tries
  {
    var a := step(got, tries);
    var got' := got + a.batch;
    var rest := if HasText(a.reply) then Run(step, num, got', tries + 1) else [];
    assert Run(step, num, got, tries) == [a] + rest;
    if k == 0 {
      FirstFits(step, num, got, tries, a, rest);
    } else {
      RunAttempts(step, num, got', tries + 1, k - 1);
      LaterFits(step, num, got, tries, a, rest, k);
    }
  }

  lemma FirstFits(step: (seq<Record>, nat) -> Attempt, num: nat, got: seq<Record>, tries: nat,
                  a: Attempt, rest: seq<Attempt>)
    requires |got| < num && tries < MaxRetries && a == step(got, tries)
    requires rest != [] ==> HasText(a.reply)
    ensures AttemptFits(step, num, got, tries, [a] + rest, 0)
  {
    assert ([a] + rest)[..0] == [];
    assert got + Generated([]) == got;
  }

  lemma LaterFits(step: (seq<Record>, nat) -> Attempt, num: nat, got: seq<Record>, tries: nat,
                  a: Attempt, rest: seq<Attempt>, k: nat)
    requires HasText(a.reply) && 0 < k <= |rest|
    requires AttemptFits(step, num, got + a.batch, tries + 1, rest, k - 1)
    ensures AttemptFits(step, num, got, tries, [a] + rest, k)
  {
    var rs := [a] + rest;
    assert rest[k - 1] == rs[k];
    assert rs[..k] == [a] + rest[..k - 1];
    GeneratedCons(a, rest[..k - 1]);
    assert got + Generated(rs[..k]) == (got + a.batch) + Generated(rest[..k - 1]);
  }

  /**
   * Why the loop ends: enough questions are generated, five attempts are
   * counted, or the last reply had no text.
   */
  lemma {:induction false} RunEnds(step: (seq<Record>, nat) -> Attempt, num: nat, got: seq<Record>, tries: nat)
    ensures Ended(num, got, tries, Run(step, num, got, tries))
    decreases MaxRetries - tries
  {
    if |got| < num && tries < MaxRetries {
      var a := step(got, tries);
      if HasText(a.reply) {
        var rest := Run(step, num, got + a.batch, tries + 1);
        assert Run(step, num, got, tries) == [a] + rest;
        RunEnds(step, num, got + a.batch, tries + 1);
        EndedShift(num, got, tries, a, rest);
      } else {
        assert Run(step, num, got, tries) == [a];
      }
    } else {
      assert got + Generated([]) == got;
    }
  }

  /** The three ways a run of attempts can end. */
  predicate Ended(num: nat, got: seq<Record>, tries: nat, rs: seq<Attempt>) {
    || |got + Generated(rs)| >= num
    || tries + |rs| >= MaxRetries
    || (rs != [] && !HasText(rs[|rs| - 1].reply))
  }

  lemma EndedShift(num: nat, got: seq<Record>, tries: nat, a: Attempt, rest: seq<Attempt>)
    requires Ended(num, got + a.batch, tries + 1, rest)
    ensures Ended(num, got, tries, [a] + rest)
  {
    GeneratedCons(a, rest);
    assert got + Generated([a] + rest) == (got + a.batch) + Generated(rest);
    if rest != [] {
      assert ([a] + rest)[|rest|] == rest[|rest| - 1];
    }
  }

  /**
   * Part way through a run: `done` are the attempts made so far, from
   * which `got` was generated, and `whole` is them followed by the rest
   * of the run.
   */
  ghost predicate PartWay(step: (seq<Record>, nat) -> Attempt, num: nat, whole: seq<Attempt>,
                          done: seq<Attempt>, got: seq<Record>)
  {
    && |done| <= MaxRetries
    && got == Generated(done)
    && whole == done + Run(step, num, got, |done|)
  }

  /** A run starts with no attempts made. */
  lemma PartWayStart(step: (seq<Record>, nat) -> Attempt, num: nat, before: seq<Record>, t0: nat)
    ensures Progress(step, num, Run(step, num, [], 0), [], [], before, before, t0, t0)
  {
    assert [] + Run(step, num, [], 0) == Run(step, num, [], 0);
    assert before + [] == before;
  }

  /**
   * Part way through a run, with the caller's running totals: the list
   * `all` is `before` extended by what the attempts generated, and the
   * count `t` is `t0` plus the tokens the attempts used.
   */
  ghost predicate Progress(step: (seq<Record>, nat) -> Attempt, num: nat, whole: seq<Attempt>,
                           done: seq<Attempt>, got: seq<Record>, before: seq<Record>, all: seq<Record>,
                           t0: nat, t: nat)
  {
    && PartWay(step, num, whole, done, got)
    && all == before + got
    && t == t0 + Tokens(done)
  }

  /**
   * One turn of the loop: the attempt taken next adds its batch to the
   * result and to the running list, and its tokens to the count; the run
   * goes on from there when its reply had text, and is complete otherwise.
   */
  lemma Advance(step: (seq<Record>, nat) -> Attempt, num: nat, whole: seq<Attempt>, done: seq<Attempt>,
                got: seq<Record>, before: seq<Record>, all: seq<Record>, t0: nat, t: nat,
                got': seq<Record>, all': seq<Record>, t': nat)
    requires Progress(step, num, whole, done, got, before, all, t0, t)
    requires |got| < num && |done| < MaxRetries
    requires var a := step(got, |done|);
      got' == got + a.batch && all' == all + a.batch && t' == t + a.reply.tokens
    ensures var a := step(got, |done|);
      && (HasText(a.reply) ==> Progress(step, num, whole, done + [a], got', before, all', t0, t'))
      && (!HasText(a.reply) ==> Complete(whole, got', before, all', t0, t'))
  {
    var a := step(got, |done|);
    GeneratedSnoc(done, a);
    Assoc(before, got, a.batch);
    if HasText(a.reply) {
      var rest := Run(step, num, got + a.batch, |done| + 1);
      assert Run(step, num, got, |done|) == [a] + rest;
      Assoc(done, [a], rest);
    } else {
      assert Run(step, num, got, |done|) == [a];
    }
  }

  /** At the end of a run: the result, the running list and the count account for all of its attempts. */
  ghost predicate Complete(whole: seq<Attempt>, got: seq<Record>, before: seq<Record>, all: seq<Record>,
                           t0: nat, t: nat)
  {
    got == Generated(whole) && all == before + got && t == t0 + Tokens(whole)
  }

  /** When the loop's condition fails, the run has no attempts left. */
  lemma Finish(step: (seq<Record>, nat) -> Attempt, num: nat, whole: seq<Attempt>, done: seq<Attempt>,
               got: seq<Record>, before: seq<Record>, all: seq<Record>, t0: nat, t: nat)
    requires Progress(step, num, whole, done, got, before, all, t0, t)
    requires !(|got| < num && |done| < MaxRetries)
    ensures Complete(whole, got, before, all, t0, t)
  {
    assert done + [] == done;
  }

  /**
   * An attempt made while questions are missing asks for the missing
   * ones, shows SubsetSize of them as references drawn from the series,
   * sends the prompts built for them and keeps what the parser reads from
   * a reply with text.
   */
  lemma NextAttemptAsks(api: (nat, Prompts) -> Reply, picks: nat -> seq<nat>, series: seq<string>, s: Setting,
                        got: seq<Record>, tries: nat)
    requires |got| < s.numToGenerate
    ensures var a := NextAttempt(api, picks, series, s, got, tries);
      && a.needed == s.numToGenerate - |got| && a.needed > 0
      && |a.references| == SubsetSize(a.needed, |series|)
      && multiset(a.references) <= multiset(series)
      && a.prompts == FormatPromptForGeneration(a.references, s.subject, a.needed, s.specificTopic, s.questionType)
      && a.reply == api(tries, a.prompts)
      && a.batch == (if HasText(a.reply) then Parse(a.reply.text.value, s.questionType) else [])
  {
  }

  /** `step` takes the attempts NextAttempt describes. */
  ghost predicate Steps(step: (seq<Record>, nat) -> Attempt, api: (nat, Prompts) -> Reply, picks: nat -> seq<nat>,
                  series: seq<string>, s: Setting)
  {
    forall got: seq<Record>, tries: nat {:trigger NextAttempt(api, picks, series, s, got, tries)} ::
      step(got, tries) == NextAttempt(api, picks, series, s, got, tries)
  }

  lemma StepSteps(api: (nat, Prompts) -> Reply, picks: nat -> seq<nat>, series: seq<string>, s: Setting)
    ensures Steps(Step(api, picks, series, s), api, picks, series, s)
  {
  }

  /** The attempts of the whole loop: none at all when loading the references failed. */
  function Loop(api: (nat, Prompts) -> Reply, picks: nat -> seq<nat>, loaded: Option<seq<string>>,
                s: Setting): seq<Attempt>
  {
    if loaded.None? then [] else Run(Step(api, picks, loaded.value, s), s.numToGenerate, [], 0)
  }

  /**
   * `attempts` are the attempts of the whole loop: none when loading the
   * references failed, and otherwise the run whose every attempt is the one
   * NextAttempt describes.
   */
  ghost predicate LoopRuns(api: (nat, Prompts) -> Reply, picks: nat -> seq<nat>, loaded: Option<seq<string>>,
                           s: Setting, attempts: seq<Attempt>)
  {
    if loaded.None? then attempts == []
    else exists step: (seq<Record>, nat) -> Attempt {:trigger Steps(step, api, picks, loaded.value, s)} ::
      Steps(step, api, picks, loaded.value, s) && attempts == Run(step, s.numToGenerate, [], 0)
  }

  /** Two ways of taking the same attempts give the same run. */
  lemma {:induction false} RunAgrees(step: (seq<Record>, nat) -> Attempt, other: (seq<Record>, nat) -> Attempt,
                                     num: nat, got: seq<Record>, tries: nat)
    requires forall g: seq<Record>, t: nat :: step(g, t) == other(g, t)
    requires tries <= MaxRetries
    ensures Run(step, num, got, tries) == Run(other, num, got, tries)
    decreases MaxRetries - tries
  {
    if |got| < num && tries < MaxRetries {
      var a := step(got, tries);
      if HasText(a.reply) {
        RunAgrees(step, other, num, got + a.batch, tries + 1);
      }
    }
  }

  /** A `step` that takes the attempts NextAttempt describes takes those of Step. */
  lemma StepsAgree(step: (seq<Record>, nat) -> Attempt, api: (nat, Prompts) -> Reply, picks: nat -> seq<nat>,
                   series: seq<string>, s: Setting)
    requires Steps(step, api, picks, series, s)
    ensures forall g: seq<Record>, t: nat :: step(g, t) == Step(api, picks, series, s)(g, t)
  {
    forall g: seq<Record>, t: nat
      ensures step(g, t) == Step(api, picks, series, s)(g, t)
    {
      assert step(g, t) == NextAttempt(api, picks, series, s, g, t);
    }
  }

  /** The attempts LoopRuns admits are exactly those of Loop. */
  lemma LoopRunsLoop(api: (nat, Prompts) -> Reply, picks: nat -> seq<nat>, loaded: Option<seq<string>>,
                     s: Setting, attempts: seq<Attempt>)
    ensures LoopRuns(api, picks, loaded, s, attempts) <==> attempts == Loop(api, picks, loaded, s)
  {
    if loaded.Some? {
      if LoopRuns(api, picks, loaded, s, attempts) {
        var step :| Steps(step, api, picks, loaded.value, s) && attempts == Run(step, s.numToGenerate, [], 0);
        StepsAgree(step, api, picks, loaded.value, s);
        RunAgrees(step, Step(api, picks, loaded.value, s), s.numToGenerate, [], 0);
      }
      if attempts == Loop(api, picks, loaded, s) {
        StepSteps(api, picks, loaded.value, s);
      }
    }
  }
}
