/** The datacard builder `LegoCards` of `LegoCards/build_datacard.py`: an object made
    from a resolved configuration (`d_input`) that keeps the process lists, the
    luminosity scale, the card header and the shapes state in fields, and writes the
    final systematics dict back into `d_input`. */
module Lego {
  import opened Text
  import opened Values
  import opened Datacard
  import opened Systematics
  import opened Shapes

  const SetupKey: Key := "setup"
  const ReservedKey: Key := "reserved_sections"
  const CategoryKey: Key := "category"
  const SignalType: string := "signal"
  const BackgroundType: string := "background"
  const ScaledHeader: string := "Rates in datacard are scaled by a factor of "

  /** `d_input['setup']['reserved_sections']`, read by the constructor. */
  function ReservedSections(dInput: Value): (r: Result<Value>)
    ensures r.Ok? ==> dInput.Dict?
  {
    var setup :- Index(dInput, SetupKey);
    Index(setup, ReservedKey)
  }

  /** `str(d_input['category'])`, the text after `cat_` in the bins of this builder. */
  function CategoryText(dInput: Value): (r: Result<string>)
    ensures r.Ok? ==> dInput.Dict?
  {
    var category :- Index(dInput, CategoryKey);
    Ok(Show(category))
  }

  /** `d_input` after `self.d_input['systematics'] = ...`. */
  function WithSystematics(dInput: Value, sysDict: Value): (r: Value)
    requires dInput.Dict?
    ensures r.Dict? && r.nested == dInput.nested
    ensures r.entries.Keys == dInput.entries.Keys + {SystematicsKey}
    ensures r.entries[SystematicsKey] == sysDict
    ensures forall k | k in dInput.entries && k != SystematicsKey :: r.entries[k] == dInput.entries[k]
  {
    Dict(dInput.entries[SystematicsKey := sysDict], dInput.nested)
  }

  /** What `_get_systematics_lines` returns: the lines of the systematics dict that
      `_get_systematics_dict` builds. */
  function LinesOfSystematics(dInput: Value, procs: seq<Key>, toFloat: FloatParser): (r: Result<(nat, string)>)
    ensures r.Ok? ==> SystematicsDict(dInput, procs, toFloat).Ok?
    ensures r.Ok? ==> r.value.0 == |SystematicsDict(dInput, procs, toFloat).value.entries|
  {
    var sysDict :- SystematicsDict(dInput, procs, toFloat);
    SystematicsLines(sysDict, procs)
  }

  class LegoCards {
    var datacardName: string
    var dInput: Value
    var notAProcess: Value
    var lumiScaling: real
    var signalProcessList: seq<Key>
    var bkgProcessList: seq<Key>
    var processList: seq<Key>
    var cardHeader: string
    var shapesExist: bool
    /** `workspace_file`, which the object only has once a shape was found. */
    var workspaceFile: Option<string>

    /** The process list is the signals followed by the backgrounds. */
    predicate Valid()
      reads this
    {
      processList == signalProcessList + bkgProcessList
    }

    constructor (datacardInput: Value, name: string, reserved: Value, signals: seq<Key>, backgrounds: seq<Key>)
      ensures Valid()
      ensures datacardName == name && dInput == datacardInput && notAProcess == reserved
      ensures lumiScaling == 1.0 && cardHeader == ""
      ensures signalProcessList == signals && bkgProcessList == backgrounds
      ensures !shapesExist && workspaceFile.None?
    {
      datacardName := name;
      dInput := datacardInput;
      notAProcess := reserved;
      lumiScaling := 1.0;
      signalProcessList := signals;
      bkgProcessList := backgrounds;
      processList := signals + backgrounds;
      cardHeader := "";
      shapesExist := false;
      workspaceFile := None;
    }

    /** `LegoCards(datacard_input, datacard_name)`: the reserved sections are read, then
        the sorted signals and the sorted backgrounds; any failing lookup is raised.
        `name` is `str(datacard_name)`. */
    static method Create(datacardInput: Value, name: string) returns (r: Result<LegoCards>)
      ensures r.Err? <==> ReservedSections(datacardInput).Err? ||
                          Processes(datacardInput, SignalType).Err? ||
                          Processes(datacardInput, BackgroundType).Err?
      ensures r.Ok? ==> fresh(r.value) && r.value.Valid()
      ensures r.Ok? ==> && r.value.dInput == datacardInput && r.value.datacardName == name
                        && r.value.signalProcessList == Processes(datacardInput, SignalType).value
                        && r.value.bkgProcessList == Processes(datacardInput, BackgroundType).value
                        && r.value.lumiScaling == 1.0 && !r.value.shapesExist
    {
      var reserved := ReservedSections(datacardInput);
      if reserved.Err? {
        return Err(reserved.error);
      }
      var signals := CollectProcesses(datacardInput, SignalType);
      if signals.Err? {
        return Err(signals.error);
      }
      // the background lookup fails exactly when the signal lookup does
      var backgrounds := CollectProcesses(datacardInput, BackgroundType);
      assert backgrounds.Ok?;
      var cards := new LegoCards(datacardInput, name, reserved.value, signals.value, backgrounds.value);
      return Ok(cards);
    }

    /** `scale_lumi_by`: the scale is stored, and a scale other than 1 is announced in
        the card header. `scaleText` is `str(lumi_scaling)`. */
    method ScaleLumiBy(lumi: real, scaleText: string)
      modifies this`lumiScaling, this`cardHeader
      ensures lumiScaling == lumi
      ensures cardHeader == if lumi != 1.0 then old(cardHeader) + ScaledHeader + scaleText else old(cardHeader)
    {
      lumiScaling := lumi;
      if lumiScaling != 1.0 {
        cardHeader := cardHeader + ScaledHeader + scaleText;
      }
    }

    /** `_get_processes(process_type)` on the current input. */
    method GetProcesses(processType: string) returns (r: Result<seq<Key>>)
      ensures r == Processes(dInput, processType)
    {
      r := CollectProcesses(dInput, processType);
    }

    /** `_get_process_lines`: the bins name the category, the rates are scaled by the
        current luminosity scale, and `'sys'` stays empty. */
    method GetProcessLines(rateText: (Value, real) -> Result<string>) returns (r: Result<ProcessLines>)
      requires Valid()
      ensures r == ProcessLinesSpec(Context(dInput, CategoryText(dInput), lumiScaling, rateText),
                                    processList, |signalProcessList|, "")
      ensures r.Ok? ==> r.value.sys == ""
      ensures r.Ok? && processList != [] ==>
                CategoryText(dInput).Ok? &&
                r.value.bin == Join(" ", Copies(BinPrefix + CategoryText(dInput).value, |processList|))
    {
      var ctx := Context(dInput, CategoryText(dInput), lumiScaling, rateText);
      r := BuildProcessLines(ctx, signalProcessList, bkgProcessList, "");
      if r.Ok? && processList != [] {
        BinLineEntries(ctx, processList, |signalProcessList|, "");
      }
    }

    /** `_get_systematics_dict`: the dict is built from the `systematics` section and the
        per-process overrides, and stored back into `d_input` when that succeeds. */
    method GetSystematicsDict(toFloat: FloatParser) returns (r: Result<Value>)
      requires Valid()
      modifies this`dInput
      ensures Valid()
      ensures r == SystematicsDict(old(dInput), processList, toFloat)
      ensures r.Ok? ==> old(dInput).Dict? && dInput == WithSystematics(old(dInput), r.value)
      ensures r.Err? ==> dInput == old(dInput)
    {
      r := BuildSystematicsDict(dInput, processList, toFloat);
      if r.Ok? {
        assert Index(dInput, SystematicsKey).Ok?;
        dInput := WithSystematics(dInput, r.value);
      }
    }

    /** `_get_systematics_lines`: the systematics dict, then one line per systematic. */
    method GetSystematicsLines(toFloat: FloatParser) returns (r: Result<(nat, string)>)
      requires Valid()
      modifies this`dInput
      ensures Valid()
      ensures r == LinesOfSystematics(old(dInput), processList, toFloat)
      ensures SystematicsDict(old(dInput), processList, toFloat).Ok? ==>
                old(dInput).Dict? &&
                dInput == WithSystematics(old(dInput), SystematicsDict(old(dInput), processList, toFloat).value)
      ensures SystematicsDict(old(dInput), processList, toFloat).Err? ==> dInput == old(dInput)
    {
      var sysDict := GetSystematicsDict(toFloat);
      if sysDict.Err? {
        return Err(sysDict.error);
      }
      r := BuildSystematicsLines(sysDict.value, signalProcessList, bkgProcessList);
    }

    /** `_get_shapes_line`: the processes are scanned in order for a truthy `shape`;
        the first one sets `shapes_exist` and `workspace_file`, and the line names the
        bin of the category. `lumiText` is `'{0:3.2f}'.format(lumi_scaling)`. */
    method GetShapesLine(lumiText: string) returns (r: Result<string>)
      modifies this`shapesExist, this`workspaceFile
      ensures r == ShapesLine(dInput, processList, CategoryText(dInput), WorkspaceFile(datacardName, lumiScaling, lumiText))
      ensures shapesExist <==> ShapesScan(dInput, processList, 0) == Ok(true)
      ensures workspaceFile == if shapesExist then Some(WorkspaceFile(datacardName, lumiScaling, lumiText))
                               else old(workspaceFile)
    {
      shapesExist := false;
      var found := ScanShapes(dInput, processList);
      if found.Err? {
        return Err(found.error);
      }
      if found.value {
        shapesExist := true;
        workspaceFile := Some(WorkspaceFile(datacardName, lumiScaling, lumiText));
        var category := CategoryText(dInput);
        if category.Err? {
          return Err(category.error);
        }
        return Ok(ShapesLineText(BinPrefix + category.value, workspaceFile.value));
      }
      return Ok(CountingComment);
    }
  }
}
