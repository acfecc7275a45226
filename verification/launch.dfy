/** The five-step store launch wizard: the current step, moved by the Next
    and Previous buttons, the progress bar, the per-step completed and
    current marks, and the form whose token symbol is kept upper-cased. */
module Launch {
  import opened Common
  import opened Text

  /** The number of entries in the wizard's step list. */
  const StepCount: int := 5

  /** The step ids, in display order. */
  const StepIds: seq<int> := [1, 2, 3, 4, 5]

  datatype Form = Form(
    storeName: string,
    storeUrl: string,
    platform: string,
    tokenName: string,
    tokenSymbol: string,
    initialSupply: string,
    rewardRate: string,
    description: string)

  datatype Wizard = Wizard(step: int, form: Form)

  /** The page as it opens: step 1, every field empty. */
  function Initial(): (w: Wizard)
    ensures w.step == 1 && Valid(w)
  {
    Wizard(1, Form("", "", "", "", "", "", "", ""))
  }

  /** The wizard's invariant: the step is one of the listed steps. */
  predicate Valid(w: Wizard)
  {
    1 <= w.step <= StepCount
  }

  /** `handleNext()`. */
  function Next(w: Wizard): (r: Wizard)
    ensures r.form == w.form
    ensures r.step == w.step + 1 <==> w.step < StepCount
    ensures w.step >= StepCount ==> r == w
  {
    if w.step < StepCount then w.(step := w.step + 1) else w
  }

  /** `handlePrevious()`. */
  function Previous(w: Wizard): (r: Wizard)
    ensures r.form == w.form
    ensures r.step == w.step - 1 <==> w.step > 1
    ensures w.step <= 1 ==> r == w
  {
    if w.step > 1 then w.(step := w.step - 1) else w
  }

  /** Next then Previous comes back to any step that is not the last. */
  lemma NextThenPrevious(w: Wizard)
    requires Valid(w) && w.step < StepCount
    ensures Previous(Next(w)) == w
  {
  }

  /** Previous then Next comes back to any step that is not the first. */
  lemma PreviousThenNext(w: Wizard)
    requires Valid(w) && w.step > 1
    ensures Next(Previous(w)) == w
  {
  }

  /** `progressPercentage`. */
  function Progress(step: int): (p: real)
    ensures p * StepCount as real == step as real * 100.0
  {
    (step as real / StepCount as real) * 100.0
  }

  /** The bar is never empty, never beyond full, and full only on the last step. */
  lemma ProgressBounds(w: Wizard)
    requires Valid(w)
    ensures 0.0 < Progress(w.step) <= 100.0
    ensures Progress(w.step) == 100.0 <==> w.step == StepCount
  {
  }

  /** The marks drawn for one entry of the step list. */
  predicate IsCompleted(step: int, id: int)
  {
    step > id
  }

  predicate IsCurrent(step: int, id: int)
  {
    step == id
  }

  /** The ids among `ids` drawn as completed, in order. */
  function CompletedAmong(ids: seq<int>, step: int): (r: seq<int>)
    ensures forall i :: 0 <= i < |r| ==> IsCompleted(step, r[i]) && r[i] in ids
    ensures forall id :: id in ids && IsCompleted(step, id) ==> id in r
    decreases |ids|
  {
    if |ids| == 0 then []
    else if IsCompleted(step, ids[0]) then [ids[0]] + CompletedAmong(ids[1..], step)
    else CompletedAmong(ids[1..], step)
  }

  /** The ids among `ids` drawn as current, in order. */
  function CurrentAmong(ids: seq<int>, step: int): (r: seq<int>)
    ensures forall i :: 0 <= i < |r| ==> IsCurrent(step, r[i]) && r[i] in ids
    ensures forall id :: id in ids && IsCurrent(step, id) ==> id in r
    decreases |ids|
  {
    if |ids| == 0 then []
    else if IsCurrent(step, ids[0]) then [ids[0]] + CurrentAmong(ids[1..], step)
    else CurrentAmong(ids[1..], step)
  }

  /** `ids` are the consecutive numbers starting at `lo`. */
  predicate IsRun(ids: seq<int>, lo: int)
  {
    forall i :: 0 <= i < |ids| ==> ids[i] == lo + i
  }

  /** No id at or past the step is completed, and none past it is current. */
  lemma {:induction false} NoneMarked(ids: seq<int>, step: int)
    requires forall i :: 0 <= i < |ids| ==> ids[i] > step
    ensures CompletedAmong(ids, step) == [] && CurrentAmong(ids, step) == []
    decreases |ids|
  {
    if |ids| > 0 {
      NoneMarked(ids[1..], step);
    }
  }

  /** In a run of ids, the completed ones are those before the step and the
      current one is the step itself. */
  lemma {:induction false} MarksOfRun(ids: seq<int>, lo: int, step: int)
    requires IsRun(ids, lo) && lo <= step < lo + |ids|
    ensures CompletedAmong(ids, step) == ids[..step - lo]
    ensures CurrentAmong(ids, step) == [step]
    decreases |ids|
  {
    var rest := ids[1..];
    assert IsRun(rest, lo + 1);
    if step == lo {
      NoneMarked(rest, step);
    } else {
      MarksOfRun(rest, lo + 1, step);
      assert ids[..step - lo] == [ids[0]] + rest[..step - lo - 1];
    }
  }

  /** On every valid step exactly one entry is current, and the completed
      entries are exactly the ones before it. */
  lemma MarksAreConsistent(w: Wizard)
    requires Valid(w)
    ensures CurrentAmong(StepIds, w.step) == [w.step]
    ensures CompletedAmong(StepIds, w.step) == StepIds[..w.step - 1]
  {
    MarksOfRun(StepIds, 1, w.step);
  }

  /** The Previous button is disabled on the first step. */
  predicate PreviousDisabled(w: Wizard)
  {
    w.step == 1
  }

  /** The Next button is shown before the last step. */
  predicate NextShown(w: Wizard)
  {
    w.step < StepCount
  }

  /** A button that is on screen and enabled always moves the wizard, and
      the ones that are not would not. */
  lemma ButtonsMatchHandlers(w: Wizard)
    requires Valid(w)
    ensures NextShown(w) <==> Next(w) != w
    ensures !PreviousDisabled(w) <==> Previous(w) != w
  {
  }

  /** The form fields. */
  datatype Field = StoreName | StoreUrl | Platform | TokenName | TokenSymbol
                 | InitialSupply | RewardRate | Description

  /** A field's `onChange`: the one field takes the typed value, the token
      symbol upper-cased; the other fields and the step are unchanged. */
  function Edit(w: Wizard, field: Field, value: string): (r: Wizard)
    ensures r.step == w.step
    ensures field != TokenSymbol ==> Get(r.form, field) == value
    ensures field == TokenSymbol ==> r.form.tokenSymbol == ToUpper(value)
    ensures forall g :: g != field ==> Get(r.form, g) == Get(w.form, g)
  {
    var f := w.form;
    var nf := match field
      case StoreName => f.(storeName := value)
      case StoreUrl => f.(storeUrl := value)
      case Platform => f.(platform := value)
      case TokenName => f.(tokenName := value)
      case TokenSymbol => f.(tokenSymbol := ToUpper(value))
      case InitialSupply => f.(initialSupply := value)
      case RewardRate => f.(rewardRate := value)
      case Description => f.(description := value);
    w.(form := nf)
  }

  /** A field's current value. */
  function Get(f: Form, field: Field): string
  {
    match field
    case StoreName => f.storeName
    case StoreUrl => f.storeUrl
    case Platform => f.platform
    case TokenName => f.tokenName
    case TokenSymbol => f.tokenSymbol
    case InitialSupply => f.initialSupply
    case RewardRate => f.rewardRate
    case Description => f.description
  }

  /** Whatever is typed, the stored symbol has no lower-case ASCII letter,
      keeps the typed length, and typing it again stores the same symbol. */
  lemma SymbolIsUpperCase(w: Wizard, value: string)
    ensures
      var s := Edit(w, TokenSymbol, value).form.tokenSymbol;
      && |s| == |value|
      && (forall i :: 0 <= i < |s| ==> !('a' <= s[i] <= 'z'))
      && Edit(w, TokenSymbol, s).form.tokenSymbol == s
  {
    ToUpperIsIdempotent(value);
  }

  /** The token symbol input's `maxLength`. */
  const SymbolMaxLength: nat := 5

  /** What the browser hands to a field's `onChange`: the symbol input keeps
      at most its first five characters; the other inputs have no limit. */
  function Delivered(field: Field, value: string): (v: string)
    ensures field == TokenSymbol ==> |v| <= SymbolMaxLength && v <= value
    ensures field == TokenSymbol && |value| <= SymbolMaxLength ==> v == value
    ensures field != TokenSymbol ==> v == value
  {
    if field == TokenSymbol && |value| > SymbolMaxLength then value[..SymbolMaxLength] else value
  }

  /** What the user can do on the page. */
  datatype Input = PressNext | PressPrevious | Type(field: Field, value: string)

  function Apply(w: Wizard, input: Input): Wizard
  {
    match input
    case PressNext => Next(w)
    case PressPrevious => Previous(w)
    case Type(field, value) => Edit(w, field, Delivered(field, value))
  }

  function Run(w: Wizard, inputs: seq<Input>): Wizard
    decreases |inputs|
  {
    if |inputs| == 0 then w else Run(Apply(w, inputs[0]), inputs[1..])
  }

  /** The stored symbol has no lower-case ASCII letter and fits the input. */
  predicate SymbolIsWellFormed(w: Wizard)
  {
    && |w.form.tokenSymbol| <= SymbolMaxLength
    && forall i :: 0 <= i < |w.form.tokenSymbol| ==> !('a' <= w.form.tokenSymbol[i] <= 'z')
  }

  /** One click or edit keeps the wizard's invariant and the symbol's case. */
  lemma ApplyKeepsInvariant(w: Wizard, input: Input)
    requires Valid(w) && SymbolIsWellFormed(w)
    ensures Valid(Apply(w, input)) && SymbolIsWellFormed(Apply(w, input))
  {
    if input.Type? && input.field != TokenSymbol {
      assert Get(Apply(w, input).form, TokenSymbol) == Get(w.form, TokenSymbol);
    }
  }

  /** From a valid page, any sequence of clicks and edits keeps the step
      within 1..5 and the stored symbol upper-case and at most five long. */
  lemma {:induction false} RunStaysValid(w: Wizard, inputs: seq<Input>)
    requires Valid(w) && SymbolIsWellFormed(w)
    ensures Valid(Run(w, inputs)) && SymbolIsWellFormed(Run(w, inputs))
    decreases |inputs|
  {
    if |inputs| > 0 {
      ApplyKeepsInvariant(w, inputs[0]);
      RunStaysValid(Apply(w, inputs[0]), inputs[1..]);
    }
  }

  /** The opening page satisfies both, so every reachable page does. */
  lemma ReachableIsValid(inputs: seq<Input>)
    ensures Valid(Run(Initial(), inputs)) && SymbolIsWellFormed(Run(Initial(), inputs))
  {
    RunStaysValid(Initial(), inputs);
  }
}
