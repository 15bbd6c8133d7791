/**
 * What the two shelf builders share: the command texts a shelf button can
 * run, the controls a configuration item turns into, and the loop over the
 * configured items as a fold over per-item steps that stops at the first
 * item that raises.
 */
module ShelfCommon {
  import opened Wrappers
  import opened PyText
  import opened PyValue

  const ShelfName: string := "FDMA_2530"
  const DefaultCellSize: int := 35
  const DefaultIcon: string := "commandButton.png"

  /** The command of the Update button. */
  const UpdaterCommand: string := "import fdma_shelf.utils.updater as _u; " + "_u.run_update()"

  /** The command of a button nothing configures. */
  const NotConfiguredCommand: string := "print('Button command not configured" + " properly')"

  /** The loader command around a script URL: download it, run it as a module, call its main() or run(). */
  const LoaderPrefix: string := "import sys, urllib.request; " + "from types import ModuleType; "
                                + "code = urllib.request.urlopen('"
  const LoaderSuffix: string := "').read(); " + "code = code.decode('utf-8') "
                                + "if isinstance(code, bytes) else code; " + "mod = ModuleType('temp'); "
                                + "exec(code, mod.__dict__); " + "fn = getattr(mod, 'main', None) "
                                + "or getattr(mod, 'run', None); " + "fn() if callable(fn) else None"

  function LoaderCommand(url: string): (r: string)
    ensures StartsWith(r, LoaderPrefix) && EndsWith(r, LoaderSuffix)
    ensures |r| == |LoaderPrefix| + |url| + |LoaderSuffix|
  {
    var r := LoaderPrefix + url + LoaderSuffix;
    assert r[..|LoaderPrefix|] == LoaderPrefix;
    assert r[|r| - |LoaderSuffix|..] == LoaderSuffix;
    r
  }

  /** The URL a loader command downloads, or None for any other command. */
  function LoaderUrl(command: string): (r: Option<string>)
    ensures r.Some? ==> command == LoaderCommand(r.value)
  {
    if |command| >= |LoaderPrefix| + |LoaderSuffix| && StartsWith(command, LoaderPrefix)
       && EndsWith(command, LoaderSuffix)
    then
      var url := command[|LoaderPrefix|..|command| - |LoaderSuffix|];
      assert command == command[..|LoaderPrefix|] + url + command[|command| - |LoaderSuffix|..];
      Some(url)
    else None
  }

  /** The URL is recovered from the loader command built around it. */
  lemma LoaderUrlRoundTrip(url: string)
    ensures LoaderUrl(LoaderCommand(url)) == Some(url)
  {
    var c := LoaderCommand(url);
    assert c[|LoaderPrefix|..|c| - |LoaderSuffix|] == url;
  }

  /** Neither fixed command is a loader command, and they differ from each other. */
  lemma FixedCommandsAreNotLoaders()
    ensures LoaderUrl(UpdaterCommand) == None
    ensures LoaderUrl(NotConfiguredCommand) == None
    ensures UpdaterCommand != NotConfiguredCommand
  {
    assert UpdaterCommand[7] == 'f' && LoaderPrefix[7] == 's';
    assert |NotConfiguredCommand| < |LoaderPrefix|;
    assert UpdaterCommand[0] != NotConfiguredCommand[0];
  }

  /** No loader command is the updater command. */
  lemma LoaderNotUpdater(url: string)
    ensures LoaderCommand(url) != UpdaterCommand
  {
    FixedCommandsAreNotLoaders();
    LoaderUrlRoundTrip(url);
  }

  /** A shelf control as the builders create it; a button's caption is its `label`. */
  datatype Control =
    | Separator(style: Value, horizontal: bool, separatorWidth: Option<Value>, separatorHeight: Option<Value>)
    | Button(caption: Value, icon: Value, annotation: Value, command: Value, width: int, height: int)

  /** What one configuration item does: nothing, one control, or raise. */
  datatype Step = Skip | Emit(control: Control) | Fail

  /** The controls of a run over the items, and whether it finished or stopped at a raise. */
  datatype ItemsResult = Done(controls: seq<Control>) | Stopped(controls: seq<Control>)

  function EmitCount(steps: seq<Step>): (n: nat)
    ensures n <= |steps|
  {
    if steps == [] then 0 else (if steps[0].Emit? then 1 else 0) + EmitCount(steps[1..])
  }

  /** The loop over the items: controls are created in order until an item raises. */
  function Collect(steps: seq<Step>): (r: ItemsResult)
    ensures r.Done? <==> forall k :: 0 <= k < |steps| ==> !steps[k].Fail?
    ensures r.Done? ==> |r.controls| == EmitCount(steps)
    ensures |r.controls| <= EmitCount(steps)
  {
    if steps == [] then Done([])
    else
      var rest := Collect(steps[1..]);
      assert forall k :: 1 <= k < |steps| ==> steps[k] == steps[1..][k - 1];
      match steps[0]
        case Fail => Stopped([])
        case Skip => rest
        case Emit(c) => (if rest.Done? then Done([c] + rest.controls) else Stopped([c] + rest.controls))
  }

  /** The controls of a finished run, followed by the run over further items. */
  function Then(first: ItemsResult, next: ItemsResult): ItemsResult {
    if first.Stopped? then first
    else if next.Done? then Done(first.controls + next.controls)
    else Stopped(first.controls + next.controls)
  }

  /** Running over `a + b` is running over `a` and then, if nothing raised, over `b`. */
  lemma {:induction false} CollectConcat(a: seq<Step>, b: seq<Step>)
    ensures Collect(a + b) == Then(Collect(a), Collect(b))
  {
    if a == [] {
      assert a + b == b;
      assert Collect(b).controls == [] + Collect(b).controls;
    } else {
      assert (a + b)[0] == a[0];
      assert (a + b)[1..] == a[1..] + b;
      CollectConcat(a[1..], b);
      match a[0]
        case Fail =>
        case Skip =>
        case Emit(c) =>
          assert [c] + (Collect(a[1..]).controls + Collect(b).controls)
              == ([c] + Collect(a[1..]).controls) + Collect(b).controls;
    }
  }

  /** One iteration of the loop: what the next item does to the controls made so far. */
  lemma ThenStep(controls: seq<Control>, rest: seq<Step>)
    requires rest != []
    ensures rest[0].Fail? ==> Then(Done(controls), Collect(rest)) == Stopped(controls)
    ensures rest[0].Skip? ==> Then(Done(controls), Collect(rest)) == Then(Done(controls), Collect(rest[1..]))
    ensures rest[0].Emit? ==>
              Then(Done(controls), Collect(rest)) == Then(Done(controls + [rest[0].control]), Collect(rest[1..]))
  {
    var next := Collect(rest[1..]);
    match rest[0]
      case Fail =>
        assert Collect(rest) == Stopped([]);
        assert controls + [] == controls;
      case Skip =>
        assert Collect(rest) == next;
      case Emit(c) =>
        assert Collect(rest).controls == [c] + next.controls;
        assert Collect(rest).Done? == next.Done?;
        assert controls + ([c] + next.controls) == (controls + [c]) + next.controls;
  }

  /** The loop has run to the end: the controls made are all there are. */
  lemma ThenDone(controls: seq<Control>)
    ensures Then(Done(controls), Collect([])) == Done(controls)
  {
    assert controls + [] == controls;
  }

  /** An item that does nothing can be removed from anywhere in the list. */
  lemma SkipAnywhere(a: seq<Step>, b: seq<Step>)
    ensures Collect(a + [Skip] + b) == Collect(a + b)
  {
    CollectConcat(a + [Skip], b);
    CollectConcat(a, [Skip]);
    CollectConcat(a, b);
    assert Collect([Skip]) == Done([]);
    assert Collect(a).controls + [] == Collect(a).controls;
  }

  /** `for item in value`: the items, or None when iterating raises or the first item cannot be a dict. */
  function ItemsOf(v: Value): (r: Option<seq<Value>>)
    ensures v.PyList? ==> r == Some(v.items)
  {
    match v
      case PyList(items) => Some(items)
      case PyTuple(elems) => Some(elems)
      case PyStr(s) => Some(seq(|s|, i requires 0 <= i < |s| => PyStr([s[i]])))
      case PyDict(entries) => if |entries| == 0 then Some([]) else None
      case _ => None
  }

  /** `item.get("enabled", True)` is truthy. */
  predicate Enabled(item: map<string, Value>) {
    Truthy(Get(item, "enabled", PyBool(true)))
  }

  /** `int(d.get(key, 35))` on the shelf_info dict; None where Python raises. */
  function CellSize(info: Value, key: string): (r: Option<int>)
    ensures info.PyDict? && key !in info.entries ==> r == Some(DefaultCellSize)
    ensures !info.PyDict? ==> r.None?
  {
    if info.PyDict? then IntOf(Get(info.entries, key, PyInt(DefaultCellSize))) else None
  }

  /** What building the shelf did. */
  datatype BuildResult =
    | NoShelfParent
    | Built(cellWidth: int, cellHeight: int, controls: seq<Control>)
    | Aborted(controls: seq<Control>)

  /** `build_shelf`: either the config is missing, or the shelf creation is scheduled and this is its result. */
  datatype ShelfOutcome = ConfigNotFound | Deferred(result: BuildResult)

  /** The result of a shelf whose parent exists and whose item loop ran. */
  function Finished(cellWidth: int, cellHeight: int, r: ItemsResult): BuildResult {
    if r.Done? then Built(cellWidth, cellHeight, r.controls) else Aborted(r.controls)
  }
}
