/**
 * The student-shelf builder, an earlier version of the cmi-tools builder:
 * `shelf_info`, `buttons` and each item's `type` are looked up with `[]`
 * (missing keys raise), only the exact label "Update" selects the updater,
 * and every other button without a command gets the loader, even for an
 * empty URL.
 */
module StudentShelfBuilder {
  import opened Wrappers
  import opened PyText
  import opened PyValue
  import opened ShelfCommon
  import CmiShelfBuilder

  /** `_build_button_command(item)`; the final not-configured return is never reached. */
  function BuildButtonCommand(item: map<string, Value>): (r: Value)
    ensures "command" in item ==> r == item["command"]
    ensures "command" !in item ==>
              r.PyStr? && (r.s == UpdaterCommand <==> Get(item, "label", PyNone) == PyStr("Update"))
    ensures "command" !in item && Get(item, "label", PyNone) != PyStr("Update") ==>
              LoaderUrl(r.s) == Some(StrOf(Get(item, "script_url", PyStr(""))))
  {
    FixedCommandsAreNotLoaders();
    if "command" in item then item["command"]
    else if PyEq(Get(item, "label", PyNone), PyStr("Update")) then PyStr(UpdaterCommand)
    else
      var url := StrOf(Get(item, "script_url", PyStr("")));
      LoaderUrlRoundTrip(url);
      LoaderNotUpdater(url);
      PyStr(LoaderCommand(url))
  }

  /** Without a `command` entry a button never gets the not-configured print. */
  lemma NeverNotConfigured(item: map<string, Value>)
    requires "command" !in item
    ensures BuildButtonCommand(item) != PyStr(NotConfiguredCommand)
  {
    FixedCommandsAreNotLoaders();
  }

  /** What one configuration item does, given the cell size. */
  function ItemStep(item: Value, cellWidth: int, cellHeight: int): (r: Step)
    ensures !item.PyDict? ==> r.Fail?
    ensures item.PyDict? && !Enabled(item.entries) ==> r.Skip?
    ensures item.PyDict? && Enabled(item.entries) && "type" !in item.entries ==> r.Fail?
    ensures r.Emit? ==> item.PyDict? && Enabled(item.entries) && "type" in item.entries
    ensures r.Emit? && r.control.Separator? ==>
              PyEq(item.entries["type"], PyStr("separator")) && r.control.separatorWidth.None?
    ensures r.Emit? && r.control.Button? ==> PyEq(item.entries["type"], PyStr("button"))
  {
    if !item.PyDict? then Fail
    else
      var d := item.entries;
      if !Enabled(d) then Skip
      else if "type" !in d then Fail
      else if PyEq(d["type"], PyStr("separator")) then
        Emit(Separator(Get(d, "style", PyStr("shelf")), !Truthy(Get(d, "horizontal", PyBool(false))), None, None))
      else if PyEq(d["type"], PyStr("button")) then
        var command := BuildButtonCommand(d);
        var width := IntOf(Get(d, "width", PyInt(cellWidth)));
        var height := IntOf(Get(d, "height", PyInt(cellHeight)));
        if width.None? || height.None? then Fail
        else Emit(Button(Get(d, "label", PyStr("")), Get(d, "icon", PyStr(DefaultIcon)),
                         Get(d, "annotation", PyStr("")), command, width.value, height.value))
      else Skip
  }

  function Steps(items: seq<Value>, cellWidth: int, cellHeight: int): (r: seq<Step>)
    ensures |r| == |items|
    ensures forall k :: 0 <= k < |items| ==> r[k] == ItemStep(items[k], cellWidth, cellHeight)
  {
    seq(|items|, k requires 0 <= k < |items| => ItemStep(items[k], cellWidth, cellHeight))
  }

  /** `_create_shelf(config)`, with whether Maya's shelf parent exists as a parameter. */
  function CreateShelf(config: Value, hasShelfParent: bool): BuildResult {
    if !config.PyDict? || "shelf_info" !in config.entries then Aborted([])
    else
      var info := config.entries["shelf_info"];
      var cellWidth := CellSize(info, "cell_width");
      var cellHeight := CellSize(info, "cell_height");
      if cellWidth.None? || cellHeight.None? then Aborted([])
      else if !hasShelfParent then NoShelfParent
      else if "buttons" !in config.entries then Aborted([])
      else match ItemsOf(config.entries["buttons"])
        case None => Aborted([])
        case Some(items) => Finished(cellWidth.value, cellHeight.value,
                                     Collect(Steps(items, cellWidth.value, cellHeight.value)))
  }

  /** `_create_shelf`, creating the controls one item at a time. */
  method CreateShelfControls(config: Value, hasShelfParent: bool) returns (result: BuildResult)
    ensures result == CreateShelf(config, hasShelfParent)
  {
    if !config.PyDict? || "shelf_info" !in config.entries {
      return Aborted([]);
    }
    var info := config.entries["shelf_info"];
    var cellWidth := CellSize(info, "cell_width");
    var cellHeight := CellSize(info, "cell_height");
    if cellWidth.None? || cellHeight.None? {
      return Aborted([]);
    }
    if !hasShelfParent {
      return NoShelfParent;
    }
    if "buttons" !in config.entries {
      return Aborted([]);
    }
    var buttons := ItemsOf(config.entries["buttons"]);
    if buttons.None? {
      return Aborted([]);
    }
    var items := buttons.value;
    ghost var steps := Steps(items, cellWidth.value, cellHeight.value);
    var controls: seq<Control> := [];
    var i := 0;
    while i < |items|
      invariant 0 <= i <= |items|
      invariant Then(Done(controls), Collect(steps[i..])) == Collect(steps)
    {
      var step := ItemStep(items[i], cellWidth.value, cellHeight.value);
      assert steps[i..][0] == step && steps[i..][1..] == steps[i + 1..];
      ThenStep(controls, steps[i..]);
      match step {
        case Fail =>
          return Aborted(controls);
        case Skip =>
        case Emit(c) =>
          controls := controls + [c];
      }
      i := i + 1;
    }
    assert steps[i..] == [];
    ThenDone(controls);
    return Built(cellWidth.value, cellHeight.value, controls);
  }

  /** `build_shelf`: an unreadable (None) or empty configuration only warns. */
  function BuildShelf(config: Option<Value>, hasShelfParent: bool): (r: ShelfOutcome)
    ensures r.ConfigNotFound? <==> config.None? || !Truthy(config.value)
    ensures r.Deferred? ==> r.result == CreateShelf(config.value, hasShelfParent)
  {
    if config.None? || !Truthy(config.value) then ConfigNotFound
    else Deferred(CreateShelf(config.value, hasShelfParent))
  }

  // ---------------------------------------------------------------------------
  // Properties of the item loop
  // ---------------------------------------------------------------------------

  /** A disabled item can be added anywhere without changing the shelf. */
  lemma DisabledItemIgnored(a: seq<Value>, d: map<string, Value>, b: seq<Value>, w: int, h: int)
    requires !Enabled(d)
    ensures Collect(Steps(a + [PyDict(d)] + b, w, h)) == Collect(Steps(a + b, w, h))
  {
    assert Steps(a + [PyDict(d)] + b, w, h) == Steps(a, w, h) + [Skip] + Steps(b, w, h);
    assert Steps(a + b, w, h) == Steps(a, w, h) + Steps(b, w, h);
    SkipAnywhere(Steps(a, w, h), Steps(b, w, h));
  }

  /**
   * An enabled item without a `type` raises: the controls of the items before
   * it stay, and nothing after it is created.
   */
  lemma MissingTypeStops(a: seq<Value>, d: map<string, Value>, b: seq<Value>, w: int, h: int)
    requires Enabled(d) && "type" !in d
    ensures Collect(Steps(a + [PyDict(d)] + b, w, h)) == Then(Collect(Steps(a, w, h)), Stopped([]))
  {
    var sa := Steps(a, w, h);
    assert ItemStep(PyDict(d), w, h) == Fail;
    assert Steps(a + [PyDict(d)] + b, w, h) == (sa + [Fail]) + Steps(b, w, h);
    CollectConcat(sa + [Fail], Steps(b, w, h));
    CollectConcat(sa, [Fail]);
    assert Collect([Fail]) == Stopped([]);
  }

  /** A configuration without `shelf_info` or `buttons` raises instead of building. */
  lemma RequiredKeys(config: map<string, Value>)
    requires "shelf_info" !in config || "buttons" !in config
    ensures CreateShelf(PyDict(config), true).Aborted?
    ensures CreateShelf(PyDict(config), true).controls == []
  {
  }

  // ---------------------------------------------------------------------------
  // Where the two builders differ
  // ---------------------------------------------------------------------------

  /** A lower-case "update" label is the updater for the cmi-tools builder but a loader here. */
  lemma LowerCaseUpdateDiffers(item: map<string, Value>)
    requires item == map["label" := PyStr("update")]
    ensures CmiShelfBuilder.BuildButtonCommand(item) == Returned(PyStr(UpdaterCommand))
    ensures BuildButtonCommand(item) == PyStr(LoaderCommand(""))
  {
    assert Lower("update") == "update";
  }

  /** A button with nothing configured is the not-configured print there and a loader of "" here. */
  lemma EmptyButtonDiffers(item: map<string, Value>)
    requires item == map[]
    ensures CmiShelfBuilder.BuildButtonCommand(item) == Returned(PyStr(NotConfiguredCommand))
    ensures BuildButtonCommand(item) == PyStr(LoaderCommand(""))
  {
    assert Lower("") == "";
  }

  /** An enabled item without a type is skipped by the cmi-tools builder and raises here. */
  lemma MissingTypeDiffers(d: map<string, Value>, w: int, h: int)
    requires Enabled(d) && "type" !in d
    ensures CmiShelfBuilder.ItemStep(PyDict(d), w, h) == Skip
    ensures ItemStep(PyDict(d), w, h) == Fail
  {
  }
}
