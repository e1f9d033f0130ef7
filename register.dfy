/**
 * The three-step registration wizard (src/pages/Register.tsx): account, skills,
 * profile. Each step has a guard that enables its Next/Finish button; step 2 keeps a
 * set-like list of chosen categories.
 */
module Registration {
  import opened Wrappers
  import opened Text

  predicate NoDuplicates(s: seq<string>) {
    forall i, j :: 0 <= i < j < |s| ==> s[i] != s[j]
  }

  /** `list.filter(x => x !== id)` */
  function Without(list: seq<string>, id: string): (r: seq<string>)
    ensures id !in r
    ensures forall x :: x in r <==> x in list && x != id
    ensures |r| <= |list|
    ensures NoDuplicates(list) ==> NoDuplicates(r)
    decreases |list|
  {
    if list == [] then []
    else
      var rest := Without(list[1..], id);
      if list[0] == id then rest
      else
        assert NoDuplicates(list) ==> list[0] !in list[1..];
        [list[0]] + rest
  }

  /** `toggleCategory`: an id that is present is removed, an absent one is appended. */
  function Toggle(list: seq<string>, id: string): (r: seq<string>)
    ensures id in r <==> id !in list
    ensures forall x :: x != id ==> (x in r <==> x in list)
    ensures id !in list ==> r == list + [id]
    ensures NoDuplicates(list) ==> NoDuplicates(r)
  {
    if id in list then Without(list, id) else list + [id]
  }

  lemma {:induction false} WithoutAbsent(list: seq<string>, id: string)
    requires id !in list
    ensures Without(list, id) == list
    decreases |list|
  {
    if list != [] {
      WithoutAbsent(list[1..], id);
      assert [list[0]] + list[1..] == list;
    }
  }

  /** Toggling an id twice gives back the same set of ids, and the very same list when
      the id was absent. */
  lemma ToggleTwice(list: seq<string>, id: string)
    ensures forall x :: x in Toggle(Toggle(list, id), id) <==> x in list
    ensures id !in list ==> Toggle(Toggle(list, id), id) == list
  {
    if id !in list {
      WithoutAbsent(list, id);
      assert Without(list + [id], id) == Without(list, id) by { WithoutAppend(list, id); }
    }
  }

  lemma {:induction false} WithoutAppend(list: seq<string>, id: string)
    ensures Without(list + [id], id) == Without(list, id)
    decreases |list|
  {
    if list == [] {
      assert Without([id], id) == Without([id][1..], id);
    } else {
      assert (list + [id])[1..] == list[1..] + [id];
      WithoutAppend(list[1..], id);
    }
  }

  /** The wizard's form. */
  datatype RegistrationForm = RegistrationForm(
    email: string,
    password: string,
    selectedCategories: seq<string>,
    skills: string,
    displayName: string)

  const EmptyForm: RegistrationForm := RegistrationForm([], [], [], [], [])

  /** Passwords shorter than this keep step 1 closed. */
  const MinPasswordLength: nat := 6

  /** `canProceed`: whether the current step's Next (or Finish) button is enabled. */
  predicate CanProceed(step: int, form: RegistrationForm) {
    if step == 1 then form.email != [] && form.password != [] && Utf16Length(form.password) >= MinPasswordLength
    else if step == 2 then |form.selectedCategories| > 0
    else if step == 3 then Trim(form.displayName) != []
    else false
  }

  /** The guards of the three steps, and that no other step value ever proceeds. */
  lemma CanProceedCases(step: int, form: RegistrationForm)
    ensures step == 1 ==> (CanProceed(step, form) <==> form.email != [] && Utf16Length(form.password) >= 6)
    ensures step == 2 ==> (CanProceed(step, form) <==> form.selectedCategories != [])
    ensures step == 3 ==> (CanProceed(step, form) <==> !AllSpace(form.displayName))
    ensures step !in {1, 2, 3} ==> !CanProceed(step, form)
  {
  }

  /** The password rule counts UTF-16 code units: three emoji, three characters, pass it. */
  lemma ThreeEmojiPasswordProceeds(form: RegistrationForm)
    requires form.email != [] && form.password == "\U{1F600}\U{1F600}\U{1F600}"
    ensures CanProceed(1, form)
    ensures |form.password| < MinPasswordLength
  {
    ThreeEmojiAreSixUnits();
  }

  /** The step indicator: active for the current step ... */
  predicate IsActive(step: int, number: int) {
    step == number
  }

  /** ... and completed (check mark, coloured connector) for the steps before it. */
  predicate IsCompleted(step: int, number: int) {
    step > number
  }

  /** In a valid step exactly one of the three indicators is active, the ones before it
      are completed, and none is both. */
  lemma IndicatorFlags(step: int)
    requires 1 <= step <= 3
    ensures |set n | n in {1, 2, 3} && IsActive(step, n)| == 1
    ensures forall n :: n in {1, 2, 3} ==> (IsCompleted(step, n) <==> n < step)
    ensures forall n :: !(IsActive(step, n) && IsCompleted(step, n))
  {
    var active := set n | n in {1, 2, 3} && IsActive(step, n);
    assert active == {step};
  }

  class RegistrationWizard {
    var step: int
    var form: RegistrationForm

    ghost predicate Valid()
      reads this
    {
      1 <= step <= 3
    }

    constructor ()
      ensures Valid() && step == 1 && form == EmptyForm
    {
      step := 1;
      form := EmptyForm;
    }

    /** The Back button, rendered only after step 1. */
    method Back()
      requires Valid()
      modifies this
      ensures Valid() && form == old(form)
      ensures step == if old(step) > 1 then old(step) - 1 else old(step)
    {
      if step > 1 {
        step := step - 1;
      }
    }

    /** The Next/Finish button: disabled unless the step may proceed; Next moves on,
        Finish (on step 3) does nothing. */
    method Next()
      requires Valid()
      modifies this
      ensures Valid() && form == old(form)
      ensures step == if CanProceed(old(step), old(form)) && old(step) < 3 then old(step) + 1 else old(step)
    {
      if CanProceed(step, form) {
        if step < 3 {
          step := step + 1;
        }
      }
    }

    /** A category card of step 2. */
    method ToggleCategory(id: string)
      modifies this
      ensures step == old(step)
      ensures form == old(form).(selectedCategories := Toggle(old(form).selectedCategories, id))
    {
      form := form.(selectedCategories := Toggle(form.selectedCategories, id));
    }

    method SetEmail(text: string)
      modifies this
      ensures step == old(step) && form == old(form).(email := text)
    {
      form := form.(email := text);
    }

    method SetPassword(text: string)
      modifies this
      ensures step == old(step) && form == old(form).(password := text)
    {
      form := form.(password := text);
    }

    method SetSkills(text: string)
      modifies this
      ensures step == old(step) && form == old(form).(skills := text)
    {
      form := form.(skills := text);
    }

    method SetDisplayName(text: string)
      modifies this
      ensures step == old(step) && form == old(form).(displayName := text)
    {
      form := form.(displayName := text);
    }
  }
}
