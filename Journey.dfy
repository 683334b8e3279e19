/**
 * The "how to donate" page: the four-step journey with its next and previous
 * buttons and its views (progress markers, step contents, button states and
 * progress width), and the title typewriter that types, pauses, deletes and
 * moves on to the next title.
 */
module Journey {

  // ----- the step machine -----

  /** The progress bar's width in percent: `(step - 1) / (total - 1) * 100`, 0 for a single step, clamped to [0, 100]. */
  function ProgressWidth(step: int, total: int): (w: real)
    ensures 0.0 <= w <= 100.0
  {
    var pct := if total > 1 then (step - 1) as real / (total - 1) as real * 100.0 else 0.0;
    if pct < 0.0 then 0.0 else if pct > 100.0 then 100.0 else pct
  }

  /** Inside the journey the width needs no clamping: 0 at the first step, 100 at the last, growing with the step. */
  lemma WidthFollowsStep(step: int, later: int, total: int)
    requires 1 <= step < later <= total
    ensures ProgressWidth(1, total) == 0.0 && ProgressWidth(total, total) == 100.0
    ensures ProgressWidth(step, total) < ProgressWidth(later, total)
  {
    var d := (total - 1) as real;
    DivideKeepsOrder((step - 1) as real, (later - 1) as real, d);
    DivideKeepsOrder((later - 1) as real, d, d);
  }

  /** Dividing by a positive number keeps the order, and a number divided by itself is 1. */
  lemma DivideKeepsOrder(a: real, b: real, d: real)
    requires a <= b && d > 0.0
    ensures a / d <= b / d && d / d == 1.0
    ensures a < b ==> a / d < b / d
  {
  }

  /** The progress markers: marker `i` is active when `i + 1` is at most the step. */
  function ProgressView(step: int, n: nat): (v: seq<bool>)
    ensures |v| == n && forall i :: 0 <= i < n ==> (v[i] <==> i + 1 <= step)
  {
    seq(n, i => i + 1 <= step)
  }

  /** The step contents: only content `step - 1` is active. */
  function ContentView(step: int, n: nat): (v: seq<bool>)
    ensures |v| == n && forall i :: 0 <= i < n ==> (v[i] <==> i + 1 == step)
  {
    seq(n, i => i + 1 == step)
  }

  /** Within the journey exactly one content is shown, and the progress markers shown are exactly the ones up to it. */
  lemma ExactlyOneContent(step: int, n: nat)
    requires 1 <= step <= n
    ensures exists k :: 0 <= k < n && ContentView(step, n)[k]
    ensures forall i, j :: 0 <= i < n && 0 <= j < n && ContentView(step, n)[i] && ContentView(step, n)[j] ==> i == j
    ensures forall i :: 0 <= i < n && ContentView(step, n)[i] ==> forall j :: 0 <= j < n ==> (ProgressView(step, n)[j] <==> j <= i)
  {
    assert ContentView(step, n)[step - 1];
  }

  class Journey {
    var currentStep: int
    const totalSteps: int
    /** The `active` class of each `.progress-step`. */
    const progress: array<bool>
    /** The `active` class of each `.journey-step`. */
    const content: array<bool>
    var prevDisabled: bool
    /** Whether the next button reads `Finalizar`. */
    var finishing: bool
    var width: real
    /** How many times the journey was completed from its last step. */
    var completions: nat

    ghost predicate Valid()
      reads this
    {
      totalSteps == 4 && 1 <= currentStep <= totalSteps && progress != content
    }

    constructor (progress: array<bool>, content: array<bool>)
      requires progress != content
      ensures Valid() && currentStep == 1 && completions == 0
      ensures this.progress == progress && this.content == content
    {
      currentStep := 1;
      totalSteps := 4;
      this.progress := progress;
      this.content := content;
      prevDisabled := true;
      finishing := false;
      width := 0.0;
      completions := 0;
    }

    /** `updateJourney`: redraws every view from the current step. */
    method UpdateJourney()
      requires Valid()
      modifies this`prevDisabled, this`finishing, this`width, progress, content
      ensures Valid()
      ensures progress[..] == ProgressView(currentStep, progress.Length)
      ensures content[..] == ContentView(currentStep, content.Length)
      ensures prevDisabled <==> currentStep == 1
      ensures finishing <==> currentStep == totalSteps
      ensures width == ProgressWidth(currentStep, totalSteps)
    {
      for i := 0 to progress.Length
        invariant forall j :: 0 <= j < i ==> (progress[j] <==> j + 1 <= currentStep)
      {
        progress[i] := i + 1 <= currentStep;
      }
      for i := 0 to content.Length
        invariant forall j :: 0 <= j < i ==> (content[j] <==> j + 1 == currentStep)
        invariant forall j :: 0 <= j < progress.Length ==> (progress[j] <==> j + 1 <= currentStep)
      {
        content[i] := i + 1 == currentStep;
      }
      prevDisabled := currentStep == 1;
      finishing := currentStep == totalSteps;
      width := ProgressWidth(currentStep, totalSteps);
    }

    /** The next button: one step forward and a redraw, or completing the journey on the last step. */
    method Next()
      requires Valid()
      modifies this, progress, content
      ensures Valid()
      ensures old(currentStep) < totalSteps ==> currentStep == old(currentStep) + 1 && completions == old(completions)
      ensures old(currentStep) == totalSteps ==> currentStep == old(currentStep) && completions == old(completions) + 1
      ensures old(currentStep) == totalSteps ==>
        progress[..] == old(progress[..]) && content[..] == old(content[..]) &&
        prevDisabled == old(prevDisabled) && finishing == old(finishing) && width == old(width)
      ensures old(currentStep) < totalSteps ==>
        progress[..] == ProgressView(currentStep, progress.Length) &&
        content[..] == ContentView(currentStep, content.Length) &&
        (prevDisabled <==> currentStep == 1) && (finishing <==> currentStep == totalSteps) &&
        width == ProgressWidth(currentStep, totalSteps)
    {
      if currentStep < totalSteps {
        currentStep := currentStep + 1;
        UpdateJourney();
      } else {
        completions := completions + 1;
      }
    }

    /** The previous button: one step back and a redraw, and nothing at the first step. */
    method Prev()
      requires Valid()
      modifies this, progress, content
      ensures Valid()
      ensures old(currentStep) > 1 ==> currentStep == old(currentStep) - 1
      ensures old(currentStep) == 1 ==>
        currentStep == 1 && progress[..] == old(progress[..]) && content[..] == old(content[..]) &&
        prevDisabled == old(prevDisabled) && finishing == old(finishing) && width == old(width)
      ensures completions == old(completions)
      ensures old(currentStep) > 1 ==>
        progress[..] == ProgressView(currentStep, progress.Length) &&
        content[..] == ContentView(currentStep, content.Length) &&
        (prevDisabled <==> currentStep == 1) && (finishing <==> currentStep == totalSteps) &&
        width == ProgressWidth(currentStep, totalSteps)
    {
      if currentStep > 1 {
        currentStep := currentStep - 1;
        UpdateJourney();
      }
    }
  }

  // ----- the typewriter -----

  /** The three titles the page cycles through. */
  const Titles: seq<string> := ["Como Doar no Prato Justo", "Transforme Alimentos em Esperança", "Faça a Diferença Hoje"]

  /** The page's titles meet what the typewriter needs: none of them is empty. */
  lemma TitlesAreTypeable()
    ensures |Titles| == 3 && forall k :: 0 <= k < |Titles| ==> |Titles[k]| > 0
  {
  }

  class Typewriter {
    const texts: seq<string>
    var textIndex: nat
    var charIndex: nat
    var isDeleting: bool
    var isPaused: bool
    /** What the title shows, without the cursor. */
    var shown: string
    /** How many calls of `type` are waiting on a timer. */
    var scheduled: nat

    /**
     * The title shown is always a prefix of the current text: while typing it
     * is shorter than the text, when paused it is the whole text, and while
     * deleting it is not yet empty.
     */
    ghost predicate Valid()
      reads this
    {
      |texts| > 0 && (forall k :: 0 <= k < |texts| ==> |texts[k]| > 0) &&
      textIndex < |texts| && charIndex <= |texts[textIndex]| &&
      shown == texts[textIndex][..charIndex] &&
      (isPaused ==> !isDeleting && charIndex == |texts[textIndex]|) &&
      (isDeleting ==> charIndex >= 1) &&
      (!isDeleting && !isPaused ==> charIndex < |texts[textIndex]|)
    }

    /** `initTypewriter`: nothing shown yet, and the first call of `type` on its timer. */
    constructor (texts: seq<string>)
      requires |texts| > 0 && forall k :: 0 <= k < |texts| ==> |texts[k]| > 0
      ensures Valid() && this.texts == texts && textIndex == 0 && charIndex == 0 && !isDeleting && !isPaused
      ensures shown == [] && scheduled == 1
    {
      this.texts := texts;
      textIndex := 0;
      charIndex := 0;
      isDeleting := false;
      isPaused := false;
      shown := [];
      scheduled := 1;
    }

    /**
     * One call of `type`, fired by a timer: nothing while paused, and then it
     * does not schedule itself again; otherwise one character more (or one less
     * while deleting) and the next call scheduled. A fully typed text pauses; a
     * fully deleted one hands over to the next text, cycling back to the first.
     */
    method Type()
      requires Valid() && scheduled >= 1
      modifies this
      ensures Valid()
      ensures old(isPaused) ==>
        textIndex == old(textIndex) && charIndex == old(charIndex) && isPaused && scheduled == old(scheduled) - 1
      ensures !old(isPaused) ==> scheduled == old(scheduled)
      ensures !old(isPaused) && !old(isDeleting) ==>
        charIndex == old(charIndex) + 1 && textIndex == old(textIndex) && !isDeleting &&
        (isPaused <==> charIndex == |texts[textIndex]|)
      ensures !old(isPaused) && old(isDeleting) ==> charIndex == old(charIndex) - 1
      ensures !old(isPaused) && old(isDeleting) && old(charIndex) == 1 ==>
        !isDeleting && textIndex == (old(textIndex) + 1) % |texts|
      ensures !old(isPaused) && old(isDeleting) && old(charIndex) > 1 ==> isDeleting && textIndex == old(textIndex)
    {
      scheduled := scheduled - 1;
      if isPaused {
        return;
      }
      var current := texts[textIndex];
      if isDeleting {
        shown := current[..charIndex - 1];
        charIndex := charIndex - 1;
      } else {
        shown := current[..charIndex + 1];
        charIndex := charIndex + 1;
      }
      if !isDeleting && charIndex == |current| {
        isPaused := true;
      } else if isDeleting && charIndex == 0 {
        isDeleting := false;
        textIndex := (textIndex + 1) % |texts|;
      }
      scheduled := scheduled + 1;
    }

    /** The pause's timer as written: typing stops pausing and starts deleting, but no call of `type` is scheduled. */
    method Resume()
      requires Valid() && isPaused
      modifies this
      ensures Valid() && isDeleting && !isPaused
      ensures textIndex == old(textIndex) && charIndex == old(charIndex) && shown == old(shown)
      ensures scheduled == old(scheduled)
    {
      isPaused := false;
      isDeleting := true;
    }

    /** The pause's timer as evidently intended: the same, and `type` scheduled again so that deleting starts. */
    method ResumeTyping()
      requires Valid() && isPaused
      modifies this
      ensures Valid() && isDeleting && !isPaused
      ensures textIndex == old(textIndex) && charIndex == old(charIndex) && shown == old(shown)
      ensures scheduled == old(scheduled) + 1
    {
      isPaused := false;
      isDeleting := true;
      scheduled := scheduled + 1;
    }
  }

  /**
   * Types the first title to the end, runs the call of `type` that finds the
   * typewriter paused, then the pause's timer, as written. The title then
   * shows the whole first text and no call of `type` is left to change it.
   */
  method FirstTitleStalls() returns (shown: string, pending: nat)
    ensures shown == Titles[0] && pending == 0
  {
    TitlesAreTypeable();
    var tw := new Typewriter(Titles);
    while !tw.isPaused
      invariant tw.Valid() && tw.texts == Titles && tw.textIndex == 0 && !tw.isDeleting && tw.scheduled == 1
      decreases |Titles[0]| - tw.charIndex
    {
      tw.Type();
    }
    tw.Type();
    tw.Resume();
    assert tw.shown == Titles[0][..|Titles[0]|];
    shown, pending := tw.shown, tw.scheduled;
  }

  /** The same run with the corrected pause timer: the next call of `type` deletes the first character from the end. */
  method FirstTitleResumes() returns (shown: string, pending: nat)
    ensures shown == Titles[0][..|Titles[0]| - 1] && pending == 1
  {
    TitlesAreTypeable();
    var tw := new Typewriter(Titles);
    while !tw.isPaused
      invariant tw.Valid() && tw.texts == Titles && tw.textIndex == 0 && !tw.isDeleting && tw.scheduled == 1
      decreases |Titles[0]| - tw.charIndex
    {
      tw.Type();
    }
    tw.Type();
    tw.ResumeTyping();
    tw.Type();
    shown, pending := tw.shown, tw.scheduled;
  }
}
