/**
 * The cmi-tools shelf builder: how a button's command is chosen, how each
 * configuration item becomes a separator, a button or nothing (with the
 * 35-pixel cell defaults), and the guard that builds nothing from a missing
 * configuration. Maya's shelf parent lookup is a parameter.
 */
module CmiShelfBuilder {
  import opened Wrappers
  import opened PyText
  import opened PyValue
  import opened ShelfCommon

  /**
   * `_build_button_command(item)`: a `command` entry verbatim, else the updater
   * for a label that lower-cases to "update", else the loader for a truthy
   * `script_url`, else the not-configured print. A non-string label raises.
   */
  function BuildButtonCommand(item: map<string, Value>): (r: Outcome)
    ensures "command" in item ==> r == Returned(item["command"])
    ensures r.Raised? <==> "command" !in item && !Get(item, "label", PyStr("")).PyStr?
    ensures "command" !in item && r.Returned? ==>
              r.value.PyStr? &&
              (r.value.s == UpdaterCommand <==> Lower(Get(item, "label", PyStr("")).s) == "update")
    ensures "command" !in item && r.Returned? && Lower(Get(item, "label", PyStr("")).s) != "update" ==>
              (LoaderUrl(r.value.s).Some? <==> Truthy(Get(item, "script_url", PyStr(""))))
              && (LoaderUrl(r.value.s).Some? ==> LoaderUrl(r.value.s).value == StrOf(Get(item, "script_url", PyStr(""))))
              && (LoaderUrl(r.value.s).None? ==> r.value.s == NotConfiguredCommand)
  {
    FixedCommandsAreNotLoaders();
    if "command" in item then Returned(item["command"])
    else
      var caption := Get(item, "label", PyStr(""));
      if !caption.PyStr? then Raised
      else if Lower(caption.s) == "update" then Returned(PyStr(UpdaterCommand))
      else
        var url := Get(item, "script_url", PyStr(""));
        if Truthy(url) then
          LoaderUrlRoundTrip(StrOf(url));
          LoaderNotUpdater(StrOf(url));
          Returned(PyStr(LoaderCommand(StrOf(url))))
        else Returned(PyStr(NotConfiguredCommand))
  }

  /** Any capitalisation of "update" selects the updater when no command is given. */
  lemma UpdateLabelAnyCase(item: map<string, Value>, caption: string)
    requires "command" !in item && "label" in item && item["label"] == PyStr(caption)
    requires Lower(caption) == "update"
    ensures BuildButtonCommand(item) == Returned(PyStr(UpdaterCommand))
  {
  }

  /** What one configuration item does, given the cell size. */
  function ItemStep(item: Value, cellWidth: int, cellHeight: int): (r: Step)
    ensures !item.PyDict? ==> r.Fail?
    ensures item.PyDict? && !Enabled(item.entries) ==> r.Skip?
    ensures r.Emit? ==> item.PyDict? && Enabled(item.entries)
    ensures r.Emit? && r.control.Separator? ==> PyEq(Get(item.entries, "type", PyNone), PyStr("separator"))
    ensures r.Emit? && r.control.Button? ==> PyEq(Get(item.entries, "type", PyNone), PyStr("button"))
  {
    if !item.PyDict? then Fail
    else
      var d := item.entries;
      if !Enabled(d) then Skip
      else
        var kind := Get(d, "type", PyNone);
        if PyEq(kind, PyStr("separator")) then
          Emit(Separator(Get(d, "style", PyStr("shelf")), !Truthy(Get(d, "horizontal", PyBool(false))),
                         Some(Get(d, "width", PyInt(cellWidth))), Some(Get(d, "height", PyInt(cellHeight)))))
        else if PyEq(kind, PyStr("button")) then
          var command := BuildButtonCommand(d);
          var width := IntOf(Get(d, "width", PyInt(cellWidth)));
          var height := IntOf(Get(d, "height", PyInt(cellHeight)));
          if command.Raised? || width.None? || height.None? then Fail
          else Emit(Button(Get(d, "label", PyStr("")), Get(d, "icon", PyStr(DefaultIcon)),
                           Get(d, "annotation", PyStr("")), command.value, width.value, height.value))
        else Skip
  }

  function Steps(items: seq<Value>, cellWidth: int, cellHeight: int): (r: seq<Step>)
    ensures |r| == |items|
    ensures forall k :: 0 <= k < |items| ==> r[k] == ItemStep(items[k], cellWidth, cellHeight)
  {
    seq(|items|, k requires 0 <= k < |items| => ItemStep(items[k], cellWidth, cellHeight))
  }

  /** `_create_shelf(config)`, with whether Maya's shelf parent exists as a parameter. */
  function CreateShelf(config: Value, hasShelfParent: bool): BuildResult {
    if !config.PyDict? then Aborted([])
    else
      var info := Get(config.entries, "shelf_info", PyDict(map[]));
      var cellWidth := CellSize(info, "cell_width");
      var cellHeight := CellSize(info, "cell_height");
      if cellWidth.None? || cellHeight.None? then Aborted([])
      else if !hasShelfParent then NoShelfParent
      else match ItemsOf(Get(config.entries, "buttons", PyList([])))
        case None => Aborted([])
        case Some(items) => Finished(cellWidth.value, cellHeight.value,
                                     Collect(Steps(items, cellWidth.value, cellHeight.value)))
  }

  /** `_create_shelf`, creating the controls one item at a time. */
  method CreateShelfControls(config: Value, hasShelfParent: bool) returns (result: BuildResult)
    ensures result == CreateShelf(config, hasShelfParent)
  {
    if !config.PyDict? {
      return Aborted([]);
    }
    var info := Get(config.entries, "shelf_info", PyDict(map[]));
    var cellWidth := CellSize(info, "cell_width");
    var cellHeight := CellSize(info, "cell_height");
    if cellWidth.None? || cellHeight.None? {
      return Aborted([]);
    }
    if !hasShelfParent {
      return NoShelfParent;
    }
    var buttons := ItemsOf(Get(config.entries, "buttons", PyList([])));
    if buttons.None? {
      return Aborted([]);
    }
    var items := buttons.value;
    ghost var steps := Steps(items, cellWidth.value, cellHeight.value);
    var controls: seq<Control> := [];
    var i := 0;
    while i < |items|
      invariant 0 <= i <= |items|
      invariant Then(Done(controls), Collect(steps[i..])) == Collect(steps)
    {
      var step := ItemStep(items[i], cellWidth.value, cellHeight.value);
      assert steps[i..][0] == step && steps[i..][1..] == steps[i + 1..];
      ThenStep(controls, steps[i..]);
      match step {
        case Fail =>
          return Aborted(controls);
        case Skip =>
        case Emit(c) =>
          controls := controls + [c];
      }
      i := i + 1;
    }
    assert steps[i..] == [];
    ThenDone(controls);
    return Built(cellWidth.value, cellHeight.value, controls);
  }

  /** `build_shelf`: an unreadable (None) or empty configuration only warns. */
  function BuildShelf(config: Option<Value>, hasShelfParent: bool): (r: ShelfOutcome)
    ensures r.ConfigNotFound? <==> config.None? || !Truthy(config.value)
    ensures r.Deferred? ==> r.result == CreateShelf(config.value, hasShelfParent)
  {
    if config.None? || !Truthy(config.value) then ConfigNotFound
    else Deferred(CreateShelf(config.value, hasShelfParent))
  }

  // ---------------------------------------------------------------------------
  // Properties of the item loop
  // ---------------------------------------------------------------------------

  /** A disabled item can be added anywhere without changing the shelf. */
  lemma DisabledItemIgnored(a: seq<Value>, d: map<string, Value>, b: seq<Value>, w: int, h: int)
    requires !Enabled(d)
    ensures Collect(Steps(a + [PyDict(d)] + b, w, h)) == Collect(Steps(a + b, w, h))
  {
    assert Steps(a + [PyDict(d)] + b, w, h) == Steps(a, w, h) + [Skip] + Steps(b, w, h);
    assert Steps(a + b, w, h) == Steps(a, w, h) + Steps(b, w, h);
    SkipAnywhere(Steps(a, w, h), Steps(b, w, h));
  }

  /** An enabled item of any type other than separator or button is ignored the same way. */
  lemma OtherTypeIgnored(a: seq<Value>, d: map<string, Value>, b: seq<Value>, w: int, h: int)
    requires !PyEq(Get(d, "type", PyNone), PyStr("separator")) && !PyEq(Get(d, "type", PyNone), PyStr("button"))
    ensures Collect(Steps(a + [PyDict(d)] + b, w, h)) == Collect(Steps(a + b, w, h))
  {
    assert ItemStep(PyDict(d), w, h) == Skip;
    assert Steps(a + [PyDict(d)] + b, w, h) == Steps(a, w, h) + [Skip] + Steps(b, w, h);
    assert Steps(a + b, w, h) == Steps(a, w, h) + Steps(b, w, h);
    SkipAnywhere(Steps(a, w, h), Steps(b, w, h));
  }

  /**
   * With no shelf_info sizes and no button sizes, a button is 35 by 35 and
   * carries its label, the default icon and annotation and the chosen command.
   */
  lemma DefaultButtonSize(config: map<string, Value>, d: map<string, Value>)
    requires "shelf_info" !in config && "buttons" in config && config["buttons"] == PyList([PyDict(d)])
    requires "type" in d && d["type"] == PyStr("button") && "command" in d
    requires "width" !in d && "height" !in d && "icon" !in d && "annotation" !in d
    requires !("enabled" in d && !Truthy(d["enabled"]))
    ensures CreateShelf(PyDict(config), true)
         == Built(DefaultCellSize, DefaultCellSize,
                  [Button(Get(d, "label", PyStr("")), PyStr(DefaultIcon), PyStr(""), d["command"],
                          DefaultCellSize, DefaultCellSize)])
  {
    var steps := Steps([PyDict(d)], DefaultCellSize, DefaultCellSize);
    assert steps[1..] == [];
    assert Collect(steps[1..]) == Done([]);
  }

  /** A finished shelf has exactly one control per item that produced one. */
  lemma BuiltCountsControls(config: Value, hasShelfParent: bool)
    requires CreateShelf(config, hasShelfParent).Built?
    ensures var r := CreateShelf(config, hasShelfParent);
            var items := ItemsOf(Get(config.entries, "buttons", PyList([]))).value;
            |r.controls| == EmitCount(Steps(items, r.cellWidth, r.cellHeight))
            && r.cellWidth == CellSize(Get(config.entries, "shelf_info", PyDict(map[])), "cell_width").value
  {
  }

  /** A configuration that could not be read, or is empty, never builds a shelf. */
  lemma MissingConfigBuildsNothing(hasShelfParent: bool)
    ensures BuildShelf(None, hasShelfParent) == ConfigNotFound
    ensures BuildShelf(Some(PyDict(map[])), hasShelfParent) == ConfigNotFound
  {
  }
}
