/** Rendering a call script as human-readable text (`parseDescription`). */
module Description {
  import opened Wrappers
  import opened Ledger

  const NoDescription: string := "No description"

  /** JavaScript truthiness of an optional string: absent and empty are both false. */
  predicate Present(o: Option<string>) {
    o.Some? && o.value != ""
  }

  /** The label of the app a step targets: its name, followed by its identifier in
      parentheses when there is one; the target address when the step has no name. */
  function AppLabel(step: Step): string {
    if Present(step.name) then
      step.name.value + (if Present(step.identifier) then " (" + step.identifier.value + ")" else "")
    else
      step.to
  }

  /** The text after the colon: the step's description, or the fallback literal. */
  function StepText(step: Step): string {
    if Present(step.description) then step.description.value else NoDescription
  }

  /** One rendered line: `<label>: <text>`. */
  function RenderStep(step: Step): (r: string)
    ensures |r| == |AppLabel(step)| + 2 + |StepText(step)|
    ensures r[..|AppLabel(step)|] == AppLabel(step)
    ensures r[|AppLabel(step)|..|AppLabel(step)| + 2] == ": "
    ensures r[|AppLabel(step)| + 2..] == StepText(step)
  {
    AppLabel(step) + ": " + StepText(step)
  }

  /** Every step rendered, in order (`path.map(...)`). */
  function RenderAll(path: seq<Step>): (r: seq<string>)
    ensures |r| == |path|
    ensures forall i :: 0 <= i < |path| ==> r[i] == RenderStep(path[i])
  {
    seq(|path|, i requires 0 <= i < |path| => RenderStep(path[i]))
  }

  /** `parts.join(sep)`. */
  function Join(parts: seq<string>, sep: char): (r: string)
    ensures |parts| == 0 ==> r == ""
    ensures |parts| == 1 ==> r == parts[0]
    ensures |parts| >= 1 ==> |parts[0]| <= |r| && r[..|parts[0]|] == parts[0]
    ensures |parts| >= 2 ==> |parts[0]| < |r| && r[|parts[0]|] == sep
    decreases |parts|
  {
    if |parts| == 0 then ""
    else if |parts| == 1 then parts[0]
    else parts[0] + [sep] + Join(parts[1..], sep)
  }

  /** `s.split(sep)`: the maximal pieces between separators; never empty. */
  function Split(s: string, sep: char): (r: seq<string>)
    ensures |r| >= 1
    decreases |s|
  {
    if |s| == 0 then [""]
    else if s[0] == sep then [""] + Split(s[1..], sep)
    else
      var rest := Split(s[1..], sep);
      [[s[0]] + rest[0]] + rest[1..]
  }

  /** The description of a call script. The empty script and the no-op script
      render as "" without asking the describer; so does a script the describer
      yields no path (or an empty path) for. */
  function Describe(env: Env, script: string): (r: string)
    ensures script == "" || script == env.emptyCallscript ==> r == ""
    ensures env.describeScript(script).None? ==> r == ""
    ensures env.describeScript(script) == Some([]) ==> r == ""
  {
    if script == "" || script == env.emptyCallscript then ""
    else
      match env.describeScript(script)
      case None => ""
      case Some(path) => Join(RenderAll(path), '\n')
  }

  /** A piece without the separator splits to itself. */
  lemma {:induction false} SplitNoSeparator(a: string, sep: char)
    requires sep !in a
    ensures Split(a, sep) == [a]
    decreases |a|
  {
    if |a| > 0 {
      assert sep !in a[1..];
      SplitNoSeparator(a[1..], sep);
      assert [a[0]] + a[1..] == a;
    }
  }

  /** Splitting at a separator that follows a separator-free piece peels that piece off. */
  lemma {:induction false} SplitAfterPiece(a: string, b: string, sep: char)
    requires sep !in a
    ensures Split(a + [sep] + b, sep) == [a] + Split(b, sep)
    decreases |a|
  {
    var s := a + [sep] + b;
    if |a| == 0 {
      assert s == [sep] + b;
      assert s[1..] == b;
    } else {
      assert s[0] == a[0];
      assert s[1..] == a[1..] + [sep] + b;
      assert sep !in a[1..];
      SplitAfterPiece(a[1..], b, sep);
      assert [a[0]] + a[1..] == a;
    }
  }

  /** Joining separator-free pieces and splitting again gives the pieces back. */
  lemma {:induction false} SplitJoin(parts: seq<string>, sep: char)
    requires |parts| >= 1
    requires forall i :: 0 <= i < |parts| ==> sep !in parts[i]
    ensures Split(Join(parts, sep), sep) == parts
    decreases |parts|
  {
    if |parts| == 1 {
      SplitNoSeparator(parts[0], sep);
    } else {
      SplitJoin(parts[1..], sep);
      SplitAfterPiece(parts[0], Join(parts[1..], sep), sep);
      assert [parts[0]] + parts[1..] == parts;
    }
  }

  /** When the describer yields a non-empty path whose rendered lines contain no
      newline, the description consists of exactly those lines, one per step. */
  lemma DescribeLines(env: Env, script: string, path: seq<Step>)
    requires script != "" && script != env.emptyCallscript
    requires env.describeScript(script) == Some(path)
    requires |path| >= 1
    requires forall i :: 0 <= i < |path| ==> '\n' !in RenderStep(path[i])
    ensures Split(Describe(env, script), '\n') == RenderAll(path)
  {
    SplitJoin(RenderAll(path), '\n');
  }

  /** Without a name the step is labelled by its address, whatever its identifier. */
  lemma IdentifierNeedsName(step: Step, identifier: Option<string>)
    requires !Present(step.name)
    ensures RenderStep(step.(identifier := identifier)) == RenderStep(step)
    ensures AppLabel(step) == step.to
  {
  }

  /** A named step is labelled by its name, followed by its identifier in
      parentheses when it has one; a step with a description shows it as is. */
  lemma NamedStepLabel(step: Step)
    requires Present(step.name)
    ensures AppLabel(step) ==
      step.name.value + (if Present(step.identifier) then " (" + step.identifier.value + ")" else "")
    ensures Present(step.identifier) ==> AppLabel(step) == step.name.value + " (" + step.identifier.value + ")"
    ensures !Present(step.identifier) ==> AppLabel(step) == step.name.value
    ensures Present(step.description) ==> StepText(step) == step.description.value
  {
  }

  /** With a name the step's address does not appear in its label. */
  lemma NameHidesAddress(step: Step, to: Address)
    requires Present(step.name)
    ensures RenderStep(step.(to := to)) == RenderStep(step)
  {
  }

  /** A step without a (non-empty) description ends in the fallback literal. */
  lemma MissingDescriptionFallback(step: Step)
    requires !Present(step.description)
    ensures RenderStep(step)[|RenderStep(step)| - |NoDescription|..] == NoDescription
  {
  }

  /** The first example step: addressed by target. */
  lemma RenderTargetStep()
    ensures RenderStep(Step("0xA", None, None, Some("mint"))) == "0xA: mint"
  {
    var st := Step("0xA", None, None, Some("mint"));
    assert AppLabel(st) == "0xA";
    assert StepText(st) == "mint";
  }

  /** The second example step: addressed by app name. */
  lemma RenderNamedStep()
    ensures RenderStep(Step("0xB", Some("Vault"), None, Some("transfer"))) == "Vault: transfer"
  {
    var st := Step("0xB", Some("Vault"), None, Some("transfer"));
    assert AppLabel(st) == "Vault";
    assert StepText(st) == "transfer";
  }

  /** A two-step script: one step addressed by target, one by app name. */
  lemma DescribeTwoSteps(env: Env, script: string)
    requires script != "" && script != env.emptyCallscript
    requires env.describeScript(script) == Some([
      Step("0xA", None, None, Some("mint")),
      Step("0xB", Some("Vault"), None, Some("transfer"))])
    ensures Describe(env, script) == "0xA: mint\nVault: transfer"
  {
    var path := env.describeScript(script).value;
    RenderTargetStep();
    RenderNamedStep();
    var lines := RenderAll(path);
    assert lines == ["0xA: mint", "Vault: transfer"];
    assert Join(lines, '\n') == "0xA: mint" + "\n" + "Vault: transfer";
  }
}
