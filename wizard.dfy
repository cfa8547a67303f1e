/**
 * The three-step profile form: the module-level `currentStep`, the Next and
 * Previous buttons, the per-step required-field check and what
 * `updateStepDisplay` shows for each step.
 */
module Wizard {
  import opened Wrappers
  import opened Strings
  import opened Notices
  import opened Forms

  const LastStep := 3

  /**
   * What the page offers `validateCurrentStep`: for each `step<i>` element
   * present, the values of its `required` fields in document order, and how
   * many `skills` checkboxes are checked.
   */
  datatype StepFields = StepFields(required: map<int, seq<string>>, checkedSkills: nat)

  /** The step can be left forward: its element exists, no required value is blank, and step 2 has a skill. */
  predicate StepComplete(form: StepFields, step: int) {
    && step in form.required
    && (forall i :: 0 <= i < |form.required[step]| ==> !IsBlank(form.required[step][i]))
    && (step == 2 ==> form.checkedSkills > 0)
  }

  /** The result of `validateCurrentStep`: its verdict, which fields it outlined in red, and its messages in call order. */
  datatype Validation = Validation(ok: bool, flagged: seq<bool>, notices: seq<Notice>)

  /** What `updateStepDisplay` shows: the step number, the bar's width in percent, the active panels and the three buttons. */
  datatype StepView = StepView(indicator: int, progress: real, active: seq<bool>,
                               prevShown: bool, nextShown: bool, submitShown: bool)

  function CountTrue(s: seq<bool>): nat {
    if s == [] then 0 else CountTrue(s[..|s| - 1]) + (if s[|s| - 1] then 1 else 0)
  }

  /** `test` applied to each value, in order: with `IsBlank`, the outline flag of each required field. */
  function Flags(test: string -> bool, fields: seq<string>): seq<bool> {
    if fields == [] then [] else Flags(test, fields[..|fields| - 1]) + [test(fields[|fields| - 1])]
  }

  /** One flag per value, each set exactly when the test holds of it; none set exactly when it holds of none. */
  lemma {:induction false} FlagsMatch(test: string -> bool, fields: seq<string>)
    ensures |Flags(test, fields)| == |fields|
    ensures forall i :: 0 <= i < |fields| ==> (Flags(test, fields)[i] <==> test(fields[i]))
    ensures (true !in Flags(test, fields)) <==> forall i :: 0 <= i < |fields| ==> !test(fields[i])
  {
    if fields != [] {
      var init := fields[..|fields| - 1];
      FlagsMatch(test, init);
      assert forall i :: 0 <= i < |init| ==> init[i] == fields[i];
      var flags := Flags(test, fields);
      assert forall i :: 0 <= i < |init| ==> flags[i] == Flags(test, init)[i];
    }
  }

  /**
   * The `forEach` of `validateCurrentStep` over one step's required values,
   * with the blank test as its callback: the outline flags, and whether none is set.
   */
  method FlagBlanks(test: string -> bool, fields: seq<string>) returns (flagged: seq<bool>, isValid: bool)
    ensures flagged == Flags(test, fields)
    ensures isValid <==> true !in flagged
  {
    isValid := true;
    flagged := [];
    var i := 0;
    while i < |fields|
      invariant 0 <= i <= |fields|
      invariant flagged == Flags(test, fields[..i])
      invariant isValid <==> true !in flagged
    {
      assert fields[..i + 1][..i] == fields[..i];
      var blank := test(fields[i]);
      flagged := flagged + [blank];
      if blank {
        isValid := false;
      }
      i := i + 1;
    }
    assert fields[..i] == fields;
  }

  class ProfileWizard {
    var currentStep: int

    ghost predicate Valid()
      reads this
    {
      1 <= currentStep <= LastStep
    }

    constructor ()
      ensures Valid() && currentStep == 1
    {
      currentStep := 1;
    }

    /** `nextStep`: moves one step forward, except from the last step. */
    method NextStep()
      requires Valid()
      modifies this
      ensures Valid()
      ensures currentStep == if old(currentStep) < LastStep then old(currentStep) + 1 else old(currentStep)
    {
      if currentStep < LastStep {
        currentStep := currentStep + 1;
      }
    }

    /** `prevStep`: moves one step back, except from the first step. */
    method PrevStep()
      requires Valid()
      modifies this
      ensures Valid()
      ensures currentStep == if old(currentStep) > 1 then old(currentStep) - 1 else old(currentStep)
    {
      if currentStep > 1 {
        currentStep := currentStep - 1;
      }
    }

    /** `updateStepDisplay` for the current step. */
    function View(): (v: StepView)
      reads this
      requires Valid()
      ensures v.indicator == currentStep
      ensures v.progress * 3.0 == currentStep as real * 100.0
      ensures 0.0 < v.progress <= 100.0 && (v.progress == 100.0 <==> v.submitShown)
      ensures |v.active| == LastStep && CountTrue(v.active) == 1 && v.active[currentStep - 1]
      ensures v.prevShown <==> currentStep > 1
      ensures v.nextShown <==> currentStep < LastStep
      ensures v.submitShown <==> currentStep == LastStep
      ensures v.nextShown != v.submitShown
    {
      var step := currentStep;
      var active := [step == 1, step == 2, step == 3];
      assert CountTrue(active) == 1 by {
        assert active[..2][..1] == [step == 1];
        assert CountTrue([step == 1]) == if step == 1 then 1 else 0;
      }
      StepView(currentStep, currentStep as real / LastStep as real * 100.0, active,
               currentStep > 1, currentStep < LastStep, currentStep == LastStep)
    }

    /** `validateCurrentStep`. */
    method ValidateCurrentStep(form: StepFields) returns (v: Validation)
      ensures v.ok <==> StepComplete(form, currentStep)
      ensures currentStep !in form.required ==> v == Validation(false, [], [])
      ensures currentStep in form.required ==>
        && |v.flagged| == |form.required[currentStep]|
        && (forall i :: 0 <= i < |v.flagged| ==> (v.flagged[i] <==> IsBlank(form.required[currentStep][i])))
        && v.notices == (if currentStep == 2 && form.checkedSkills == 0 then [SelectSkill] else [])
                        + (if v.ok then [] else [FillRequired])
    {
      if currentStep !in form.required {
        return Validation(false, [], []);
      }
      var fields := form.required[currentStep];
      var flagged, isValid := FlagBlanks(IsBlank, fields);
      FlagsMatch(IsBlank, fields);
      var notices: seq<Notice> := [];
      if currentStep == 2 && form.checkedSkills == 0 {
        notices := notices + [SelectSkill];
        isValid := false;
      }
      if !isValid {
        notices := notices + [FillRequired];
      }
      v := Validation(isValid, flagged, notices);
    }

    /** The Next button: validate the step, and advance only when it is complete. */
    method ClickNext(form: StepFields) returns (v: Validation)
      requires Valid()
      modifies this
      ensures Valid()
      ensures v.ok <==> StepComplete(form, old(currentStep))
      ensures old(currentStep) !in form.required ==> v == Validation(false, [], [])
      ensures old(currentStep) in form.required ==>
        && |v.flagged| == |form.required[old(currentStep)]|
        && (forall i :: 0 <= i < |v.flagged| ==> (v.flagged[i] <==> IsBlank(form.required[old(currentStep)][i])))
        && v.notices == (if old(currentStep) == 2 && form.checkedSkills == 0 then [SelectSkill] else [])
                        + (if v.ok then [] else [FillRequired])
      ensures currentStep == if v.ok && old(currentStep) < LastStep then old(currentStep) + 1 else old(currentStep)
    {
      v := ValidateCurrentStep(form);
      if v.ok {
        NextStep();
      }
    }

    /**
     * The Submit button: validate the current step and, when it is complete,
     * build the profile from the form's entries. `notices` are all the
     * `showMessage` calls in order.
     */
    method ClickSubmit(form: StepFields, entries: seq<Entry>)
      returns (saved: Option<Profile>, flagged: seq<bool>, notices: seq<Notice>)
      ensures saved.Some? <==> StepComplete(form, currentStep)
      ensures saved.Some? ==> IsProfileOf(entries, saved.value)
      ensures currentStep !in form.required ==> flagged == [] && notices == []
      ensures currentStep in form.required ==>
        && |flagged| == |form.required[currentStep]|
        && (forall i :: 0 <= i < |flagged| ==> (flagged[i] <==> IsBlank(form.required[currentStep][i])))
        && notices == (if currentStep == 2 && form.checkedSkills == 0 then [SelectSkill] else [])
                      + [if saved.Some? then ProfileCreated else FillRequired]
    {
      var v := ValidateCurrentStep(form);
      flagged := v.flagged;
      if v.ok {
        var p := SubmitProfile(entries);
        saved, notices := Some(p), v.notices + [ProfileCreated];
      } else {
        saved, notices := None, v.notices;
      }
    }
  }

  /**
   * When step 2 fails for want of a skill, the skill message is shown and
   * at once replaced by the general one, which is what stays on screen.
   */
  lemma FailedStepShowsGeneralMessage(screen: seq<Notice>, notices: seq<Notice>, form: StepFields, step: int)
    requires |screen| <= 1 && step in form.required && !StepComplete(form, step)
    requires notices == (if step == 2 && form.checkedSkills == 0 then [SelectSkill] else []) + [FillRequired]
    ensures ShowAll(screen, notices) == [FillRequired]
  {
    LastCallWins(screen, notices);
  }
}
