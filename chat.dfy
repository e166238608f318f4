/** The hosted language model, seen only through what each request returns, and the
    loop both summarisers share: send each prompt of a prompt dict in order and
    collect the stripped answers under the prompt's key, stopping at the first
    request that raises. */
module Chat {
  import opened Dicts
  import opened Text

  /** What one chat-completion request gives back: the message content, or the
      message of the exception it raised. */
  datatype Reply = Answer(content: string) | Raised(message: string)

  /** The model as an oracle: request number `n` (counted from 0 within one run
      over a prompt dict) carrying prompt `p` gets `model(n, p)`. The same prompt
      may get different replies at different requests. */
  type Model = (nat, string) -> Reply

  /** A section dict, or a plain string in its place (the application's error strings). */
  datatype Summary = Sections(sections: Dict<string>) | Message(text: string)

  /** The outcome of asking every prompt: the collected answers, or the index and
      exception message of the request that raised. */
  datatype Asked = Answered(sections: Dict<string>) | FailedAt(index: nat, message: string)

  /** One request: prompt number `i` of `prompts` is sent unless an earlier one raised. */
  function Step(a: Asked, prompts: Dict<string>, model: Model, i: nat): Asked
    requires i < |prompts|
  {
    match a
    case FailedAt(_, _) => a
    case Answered(d) =>
      match model(i, prompts[i].1)
      case Answer(c) => Answered(Set(d, prompts[i].0, Strip(c)))
      case Raised(m) => FailedAt(i, m)
  }

  /** The outcome after the first `n` prompts. */
  function AskFirst(prompts: Dict<string>, model: Model, n: nat): (a: Asked)
    requires n <= |prompts|
    ensures a.FailedAt? ==> a.index < n
  {
    if n == 0 then Answered([]) else Step(AskFirst(prompts, model, n - 1), prompts, model, n - 1)
  }

  function AskAll(prompts: Dict<string>, model: Model): Asked {
    AskFirst(prompts, model, |prompts|)
  }

  /** How many requests were sent before the outcome was known. */
  function RequestCount(a: Asked, total: nat): nat {
    match a
    case Answered(_) => total
    case FailedAt(i, _) => i + 1
  }

  /** Once a request has raised, later prompts change nothing. */
  lemma {:induction false} FailureIsFinal(prompts: Dict<string>, model: Model, n: nat, m: nat)
    requires n <= m <= |prompts| && AskFirst(prompts, model, n).FailedAt?
    ensures AskFirst(prompts, model, m) == AskFirst(prompts, model, n)
    decreases m - n
  {
    if n < m {
      assert AskFirst(prompts, model, n + 1) == AskFirst(prompts, model, n);
      FailureIsFinal(prompts, model, n + 1, m);
    }
  }

  /** Request `i` of a run over `prompts` is answered. */
  predicate AnswersAt(prompts: Dict<string>, model: Model, i: nat)
    requires i < |prompts|
  {
    model(i, prompts[i].1).Answer?
  }

  /** A step keeps collecting exactly when it was collecting and its request is answered. */
  lemma StepAnswered(a: Asked, prompts: Dict<string>, model: Model, i: nat)
    requires i < |prompts|
    ensures Step(a, prompts, model, i).Answered? <==> a.Answered? && model(i, prompts[i].1).Answer?
  {
  }

  /** Whether the run over the first `n` prompts is still collecting answers depends only
      on which requests were answered, never on the answers themselves. */
  lemma {:induction false} AnsweredStep(prompts: Dict<string>, model: Model, n: nat)
    requires 0 < n <= |prompts|
    ensures AskFirst(prompts, model, n).Answered? <==>
      AskFirst(prompts, model, n - 1).Answered? && AnswersAt(prompts, model, n - 1)
  {
    StepAnswered(AskFirst(prompts, model, n - 1), prompts, model, n - 1);
  }

  /** Every request is answered exactly when no request up to `n` raised. */
  lemma {:induction false} AnsweredIffNoneRaised(prompts: Dict<string>, model: Model, n: nat)
    requires n <= |prompts|
    ensures AskFirst(prompts, model, n).Answered? <==> forall i :: 0 <= i < n ==> AnswersAt(prompts, model, i)
    decreases n
  {
    if n > 0 {
      AnsweredIffNoneRaised(prompts, model, n - 1);
      AnsweredStep(prompts, model, n);
      if !AskFirst(prompts, model, n).Answered? && AnswersAt(prompts, model, n - 1) {
        var i :| 0 <= i < n - 1 && !AnswersAt(prompts, model, i);
      }
    }
  }

  /** When all are answered, the result holds one entry per prompt, in prompt
      order, keyed by the prompt's key and holding the stripped answer. */
  lemma {:induction false} AnsweredSections(prompts: Dict<string>, model: Model, n: nat)
    requires n <= |prompts| && DistinctKeys(prompts) && AskFirst(prompts, model, n).Answered?
    ensures var d := AskFirst(prompts, model, n).sections;
      |d| == n && forall i :: 0 <= i < n ==>
        d[i].0 == prompts[i].0 && model(i, prompts[i].1).Answer? && d[i].1 == Strip(model(i, prompts[i].1).content)
    decreases n
  {
    if n > 0 {
      var before := AskFirst(prompts, model, n - 1);
      StepAnswered(before, prompts, model, n - 1);
      AnsweredSections(prompts, model, n - 1);
      var d, k := before.sections, prompts[n - 1].0;
      forall j | 0 <= j < |d| ensures d[j].0 != k {
        assert d[j].0 == prompts[j].0;
      }
      SetAbsent(d, k, Strip(model(n - 1, prompts[n - 1].1).content));
    }
  }

  /** A step that fails while collecting fails at its own request, with that request's message. */
  lemma StepFailed(a: Asked, prompts: Dict<string>, model: Model, i: nat)
    requires i < |prompts|
    ensures a.FailedAt? ==> Step(a, prompts, model, i) == a
    ensures a.Answered? && Step(a, prompts, model, i).FailedAt? ==>
      Step(a, prompts, model, i).index == i && model(i, prompts[i].1) == Raised(Step(a, prompts, model, i).message)
  {
  }

  /** When a request raised, it is the first one that did, and its message is kept. */
  lemma {:induction false} FailedAtFirst(prompts: Dict<string>, model: Model, n: nat)
    requires n <= |prompts| && AskFirst(prompts, model, n).FailedAt?
    ensures var k := AskFirst(prompts, model, n).index;
      k < n && model(k, prompts[k].1) == Raised(AskFirst(prompts, model, n).message)
      && forall i :: 0 <= i < k ==> AnswersAt(prompts, model, i)
    decreases n
  {
    var before, after := AskFirst(prompts, model, n - 1), AskFirst(prompts, model, n);
    assert after == Step(before, prompts, model, n - 1);
    StepFailed(before, prompts, model, n - 1);
    if before.FailedAt? {
      FailedAtFirst(prompts, model, n - 1);
      assert after == before;
    } else {
      AnsweredIffNoneRaised(prompts, model, n - 1);
      assert after.index == n - 1;
    }
  }

  /** The shared loop. Returns the outcome and the number of requests sent. */
  method AskEach(prompts: Dict<string>, model: Model) returns (outcome: Asked, requests: nat)
    ensures outcome == AskAll(prompts, model)
    ensures requests == RequestCount(outcome, |prompts|) <= |prompts|
  {
    var summaries: Dict<string> := [];
    requests := 0;
    for i := 0 to |prompts|
      invariant AskFirst(prompts, model, i) == Answered(summaries)
      invariant requests == i
    {
      var section, prompt := prompts[i].0, prompts[i].1;
      requests := requests + 1;
      match model(i, prompt)
      case Answer(content) =>
        summaries := Set(summaries, section, Strip(content));
      case Raised(message) =>
        outcome := FailedAt(i, message);
        FailureIsFinal(prompts, model, i + 1, |prompts|);
        return;
    }
    outcome := Answered(summaries);
  }
}
