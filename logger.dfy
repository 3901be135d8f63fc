/** The session log of update/update_logger.py: a session holds phases, a
    phase holds steps, and the session collects statistics, manual steps,
    errors and warnings. Timestamps and durations are not modelled. */
module UpdateLog {
  import opened Wrappers
  import opened Seqs

  /** One `log_step` entry. The optional output dictionary is kept as text
      values. */
  datatype Step = Step(script: string, status: string, durationMs: int,
                       output: Option<Assoc<string>>, errorMessage: Option<string>)

  /** A phase; `success` is None while the phase is open. */
  datatype Phase = Phase(name: string, steps: seq<Step>, success: Option<bool>)

  /** The session record once `start_session` ran; `success` is None until
      `end_session`. */
  datatype Session = Session(ended: bool, success: Option<bool>)

  /** `get_log_data`: the seven sections. A session that never started is
      the empty dictionary, None here. */
  datatype LogData = LogData(session: Option<Session>, environment: Assoc<string>, phases: seq<Phase>,
                             statistics: Assoc<string>, manualStepsRequired: seq<string>,
                             errors: seq<string>, warnings: seq<string>)

  /** A phase's default outcome: every step has status "success" (true when
      there are no steps). */
  predicate StepsSucceeded(steps: seq<Step>)
  {
    forall i :: 0 <= i < |steps| ==> steps[i].status == "success"
  }

  /** The phase `end_phase` stores: an explicit outcome wins over the default. */
  function Closed(p: Phase, success: Option<bool>): (q: Phase)
    ensures q.name == p.name && q.steps == p.steps && q.success.Some?
    ensures success.Some? ==> q.success == success
    ensures success.None? ==> (q.success.value <==> forall s :: s in p.steps ==> s.status == "success")
  {
    Phase(p.name, p.steps, Some(if success.Some? then success.value else StepsSucceeded(p.steps)))
  }

  /** The session's default outcome: every phase succeeded and no error was
      recorded. */
  predicate SessionSucceeded(phases: seq<Phase>, errors: seq<string>)
  {
    (forall i :: 0 <= i < |phases| ==> phases[i].success == Some(true)) && |errors| == 0
  }

  /** The session error a step adds: only an "error" step with a non-empty
      message adds `"script: message"`. */
  function StepError(script: string, status: string, errorMessage: Option<string>): (e: seq<string>)
    ensures |e| <= 1
    ensures |e| == 1 <==> status == "error" && errorMessage.Some? && errorMessage.value != ""
    ensures |e| == 1 ==> e[0] == script + ": " + errorMessage.value
  {
    if status == "error" && errorMessage.Some? && errorMessage.value != "" then
      [script + ": " + errorMessage.value]
    else []
  }

  /** A step that failed makes its phase fail by default. */
  lemma FailedStepFailsPhase(p: Phase, s: Step)
    requires s in p.steps && s.status != "success"
    ensures Closed(p, None).success == Some(false)
  {
  }

  /** Once an error is recorded, the session fails by default, whatever its
      phases did. */
  lemma ErrorFailsSession(phases: seq<Phase>, errors: seq<string>, script: string, message: string)
    requires message != ""
    ensures !SessionSucceeded(phases, errors + StepError(script, "error", Some(message)))
  {
  }

  /** A failed phase makes the session fail by default. */
  lemma FailedPhaseFailsSession(phases: seq<Phase>, errors: seq<string>, i: nat)
    requires i < |phases| && phases[i].success == Some(false)
    ensures !SessionSucceeded(phases, errors)
  {
  }

  class UpdateLogger {
    var session: Option<Session>
    var environment: Assoc<string>
    var phases: seq<Phase>
    var currentPhase: Option<Phase>
    var statistics: Assoc<string>
    var manualSteps: seq<string>
    var errors: seq<string>
    var warnings: seq<string>
    var sessionStarted: bool

    /** An open phase exists only inside a session and has no outcome yet;
        every stored phase has one. */
    ghost predicate Valid()
      reads this
    {
      && (sessionStarted <==> session.Some?)
      && (currentPhase.Some? ==> sessionStarted && currentPhase.value.success.None?)
      && (forall i :: 0 <= i < |phases| ==> phases[i].success.Some?)
    }

    /** `__init__`; the logs directory is not modelled. */
    constructor ()
      ensures Valid()
      ensures session.None? && environment == [] && phases == [] && currentPhase.None?
      ensures statistics == [] && manualSteps == [] && errors == [] && warnings == []
      ensures !sessionStarted
    {
      session := None;
      environment := [];
      phases := [];
      currentPhase := None;
      statistics := [];
      manualSteps := [];
      errors := [];
      warnings := [];
      sessionStarted := false;
    }

    /** `start_session`; the environment it records (interpreter version,
        platform, working directory) is the parameter. */
    method StartSession(env: Assoc<string>)
      modifies this
      ensures Valid()
      ensures session == Some(Session(false, None)) && environment == env
      ensures phases == [] && currentPhase.None? && statistics == []
      ensures manualSteps == [] && errors == [] && warnings == []
      ensures sessionStarted
    {
      session := Some(Session(false, None));
      environment := env;
      phases := [];
      currentPhase := None;
      statistics := [];
      manualSteps := [];
      errors := [];
      warnings := [];
      sessionStarted := true;
    }

    /** `set_environment(**kwargs)`. */
    method SetEnvironment(kw: Assoc<string>)
      requires Valid() && NoDups(Keys(kw))
      modifies this
      ensures Valid()
      ensures environment == Update(old(environment), kw)
      ensures session == old(session) && phases == old(phases) && currentPhase == old(currentPhase)
      ensures statistics == old(statistics) && manualSteps == old(manualSteps)
      ensures errors == old(errors) && warnings == old(warnings) && sessionStarted == old(sessionStarted)
    {
      environment := Update(environment, kw);
    }

    /** `end_phase`: nothing without an open phase; otherwise the phase is
        stored with its outcome and closed. */
    method EndPhase(success: Option<bool>)
      requires Valid()
      modifies this
      ensures Valid()
      ensures old(currentPhase).None? ==> phases == old(phases)
      ensures old(currentPhase).Some? ==> phases == old(phases) + [Closed(old(currentPhase).value, success)]
      ensures currentPhase.None?
      ensures session == old(session) && environment == old(environment)
      ensures statistics == old(statistics) && manualSteps == old(manualSteps)
      ensures errors == old(errors) && warnings == old(warnings) && sessionStarted == old(sessionStarted)
    {
      if currentPhase.None? {
        return;
      }
      phases := phases + [Closed(currentPhase.value, success)];
      currentPhase := None;
    }

    /** `start_phase`: raises (true) before `start_session`; otherwise an
        open phase is ended with its default outcome and a new empty one
        opens. */
    method StartPhase(name: string) returns (raised: bool)
      requires Valid()
      modifies this
      ensures Valid()
      ensures raised <==> !old(sessionStarted)
      ensures raised ==> currentPhase == old(currentPhase) && phases == old(phases)
      ensures !raised ==> currentPhase == Some(Phase(name, [], None))
      ensures !raised && old(currentPhase).None? ==> phases == old(phases)
      ensures !raised && old(currentPhase).Some? ==> phases == old(phases) + [Closed(old(currentPhase).value, None)]
      ensures session == old(session) && environment == old(environment)
      ensures statistics == old(statistics) && manualSteps == old(manualSteps)
      ensures errors == old(errors) && warnings == old(warnings) && sessionStarted == old(sessionStarted)
    {
      if !sessionStarted {
        return true;
      }
      EndPhase(None);
      currentPhase := Some(Phase(name, [], None));
      raised := false;
    }

    /** `log_step`: raises (true) without an open phase; otherwise the step
        joins the open phase, and an error step with a message is also
        recorded as a session error. */
    method LogStep(script: string, status: string, durationMs: int,
                   output: Option<Assoc<string>>, errorMessage: Option<string>) returns (raised: bool)
      requires Valid()
      modifies this
      ensures Valid()
      ensures raised <==> old(currentPhase).None?
      ensures raised ==> currentPhase == old(currentPhase) && errors == old(errors)
      ensures !raised ==> currentPhase == Some(Phase(old(currentPhase).value.name,
        old(currentPhase).value.steps + [Step(script, status, durationMs, output, errorMessage)], None))
      ensures !raised ==> errors == old(errors) + StepError(script, status, errorMessage)
      ensures session == old(session) && environment == old(environment) && phases == old(phases)
      ensures statistics == old(statistics) && manualSteps == old(manualSteps)
      ensures warnings == old(warnings) && sessionStarted == old(sessionStarted)
    {
      if currentPhase.None? {
        return true;
      }
      var p := currentPhase.value;
      currentPhase := Some(Phase(p.name, p.steps + [Step(script, status, durationMs, output, errorMessage)], None));
      errors := errors + StepError(script, status, errorMessage);
      raised := false;
    }

    /** `set_statistics(**kwargs)`. */
    method SetStatistics(kw: Assoc<string>)
      requires Valid() && NoDups(Keys(kw))
      modifies this
      ensures Valid()
      ensures statistics == Update(old(statistics), kw)
      ensures session == old(session) && environment == old(environment) && phases == old(phases)
      ensures currentPhase == old(currentPhase) && manualSteps == old(manualSteps)
      ensures errors == old(errors) && warnings == old(warnings) && sessionStarted == old(sessionStarted)
    {
      statistics := Update(statistics, kw);
    }

    /** `add_manual_step`. */
    method AddManualStep(step: string)
      requires Valid()
      modifies this
      ensures Valid()
      ensures manualSteps == old(manualSteps) + [step]
      ensures session == old(session) && environment == old(environment) && phases == old(phases)
      ensures currentPhase == old(currentPhase) && statistics == old(statistics)
      ensures errors == old(errors) && warnings == old(warnings) && sessionStarted == old(sessionStarted)
    {
      manualSteps := manualSteps + [step];
    }

    /** `add_warning`. */
    method AddWarning(message: string)
      requires Valid()
      modifies this
      ensures Valid()
      ensures warnings == old(warnings) + [message]
      ensures session == old(session) && environment == old(environment) && phases == old(phases)
      ensures currentPhase == old(currentPhase) && statistics == old(statistics)
      ensures manualSteps == old(manualSteps) && errors == old(errors) && sessionStarted == old(sessionStarted)
    {
      warnings := warnings + [message];
    }

    /** `add_error`. */
    method AddError(message: string)
      requires Valid()
      modifies this
      ensures Valid()
      ensures errors == old(errors) + [message]
      ensures session == old(session) && environment == old(environment) && phases == old(phases)
      ensures currentPhase == old(currentPhase) && statistics == old(statistics)
      ensures manualSteps == old(manualSteps) && warnings == old(warnings) && sessionStarted == old(sessionStarted)
    {
      errors := errors + [message];
    }

    /** `end_session`: nothing before `start_session`; otherwise an open
        phase is ended with its default outcome and the session records its
        outcome, by default whether every phase succeeded with no error. */
    method EndSession(success: Option<bool>)
      requires Valid()
      modifies this
      ensures Valid()
      ensures !old(sessionStarted) ==> session == old(session) && phases == old(phases)
      ensures old(sessionStarted) && old(currentPhase).None? ==> phases == old(phases)
      ensures old(sessionStarted) && old(currentPhase).Some? ==>
        phases == old(phases) + [Closed(old(currentPhase).value, None)]
      ensures old(sessionStarted) ==> session == Some(Session(true,
        Some(if success.Some? then success.value else SessionSucceeded(phases, errors))))
      ensures currentPhase == if old(sessionStarted) then None else old(currentPhase)
      ensures environment == old(environment) && statistics == old(statistics)
      ensures manualSteps == old(manualSteps) && errors == old(errors) && warnings == old(warnings)
      ensures sessionStarted == old(sessionStarted)
    {
      if !sessionStarted {
        return;
      }
      EndPhase(None);
      var outcome := if success.Some? then success.value else SessionSucceeded(phases, errors);
      session := Some(Session(true, Some(outcome)));
    }

    /** `get_log_data`. */
    function GetLogData(): (d: LogData)
      reads this
      ensures d.session == session && d.environment == environment && d.phases == phases
      ensures d.statistics == statistics && d.manualStepsRequired == manualSteps
      ensures d.errors == errors && d.warnings == warnings
    {
      LogData(session, environment, phases, statistics, manualSteps, errors, warnings)
    }
  }
}
