/** The older builder `DatacardBuilder` of `build_datacard.py`. It keeps the same fields
    as `LegoCards`, but its bins are named after the datacard rather than the category,
    its process block carries a placeholder `sys` line, and it reads the systematics
    table straight from `d_input['systematics']`. */
module Builder {
  import opened Text
  import opened Values
  import opened Datacard
  import opened Shapes

  const SetupKey: Key := "setup"
  const ReservedKey: Key := "reserved_sections"
  const FunctionsKey: Key := "functions_and_definitions"
  const SystematicsSection: Key := "systematics"
  const SignalType: string := "signal"
  const BackgroundType: string := "background"
  const ScaledHeader: string := "Rates in datacard are scaled by a factor of "
  /** What the process loops store under `'sys'`. */
  const SysPlaceholder: string := "#systematics line: not implemented yet!!!"

  /** `d_input['setup']['reserved_sections']`, read by the constructor. */
  function ReservedSections(dInput: Value): (r: Result<Value>)
    ensures r.Ok? ==> dInput.Dict?
  {
    var setup :- Index(dInput, SetupKey);
    Index(setup, ReservedKey)
  }

  /** `_get_functions_and_definitions(data)`: the stored entry, or `[]` when `data` has
      none. A `nested_dict` hands back an empty child instead of raising. */
  function FunctionsAndDefinitions(data: Value): (r: Result<Value>)
    ensures r.Ok? <==> data.Dict?
    ensures data.Dict? && FunctionsKey in data.entries ==> r == Ok(data.entries[FunctionsKey])
    ensures data.Dict? && FunctionsKey !in data.entries && !data.nested ==> r == Ok(List([]))
    ensures r.Err? ==> r.error == TypeError
  {
    match CatchKeyError(Index(data, FunctionsKey))
    case Ok(Some(v)) => Ok(v)
    case Ok(None) => Ok(List([]))
    case Err(e) => Err(e)
  }

  /** What `_get_systematics_lines` returns: the table of `d_input['systematics']`. */
  function SectionLines(dInput: Value, procs: seq<Key>): (r: Result<(nat, string)>)
    ensures r.Ok? ==> Index(dInput, SystematicsSection).Ok? && Index(dInput, SystematicsSection).value.Dict?
    ensures r.Ok? ==> r.value.0 == |Index(dInput, SystematicsSection).value.entries|
  {
    var sysDict :- Index(dInput, SystematicsSection);
    SystematicsLines(sysDict, procs)
  }

  class DatacardBuilder {
    var datacardName: string
    var dInput: Value
    var notAProcess: Value
    var lumiScaling: real
    var signalProcessList: seq<Key>
    var bkgProcessList: seq<Key>
    var processList: seq<Key>
    var cardHeader: string
    var shapesExist: bool
    /** `shapes_output_file`, which the object only has once a shape was found. */
    var shapesOutputFile: Option<string>

    /** The process list is the signals followed by the backgrounds. */
    predicate Valid()
      reads this
    {
      processList == signalProcessList + bkgProcessList
    }

    constructor (name: string, datacardInput: Value, reserved: Value, signals: seq<Key>, backgrounds: seq<Key>)
      ensures Valid()
      ensures datacardName == name && dInput == datacardInput && notAProcess == reserved
      ensures lumiScaling == 1.0 && cardHeader == ""
      ensures signalProcessList == signals && bkgProcessList == backgrounds
      ensures !shapesExist && shapesOutputFile.None?
    {
      datacardName := name;
      dInput := datacardInput;
      notAProcess := reserved;
      lumiScaling := 1.0;
      signalProcessList := signals;
      bkgProcessList := backgrounds;
      processList := signals + backgrounds;
      cardHeader := "";
      shapesExist := false;
      shapesOutputFile := None;
    }

    /** `DatacardBuilder(datacard_name, datacard_input)`: the reserved sections are read,
        then the sorted signals and the sorted backgrounds; any failing lookup is raised. */
    static method Create(name: string, datacardInput: Value) returns (r: Result<DatacardBuilder>)
      ensures r.Err? <==> ReservedSections(datacardInput).Err? ||
                          Processes(datacardInput, SignalType).Err? ||
                          Processes(datacardInput, BackgroundType).Err?
      ensures r.Ok? ==> fresh(r.value) && r.value.Valid()
      ensures r.Ok? ==> && r.value.dInput == datacardInput && r.value.datacardName == name
                        && r.value.signalProcessList == Processes(datacardInput, SignalType).value
                        && r.value.bkgProcessList == Processes(datacardInput, BackgroundType).value
                        && r.value.lumiScaling == 1.0 && !r.value.shapesExist
    {
      var reserved := ReservedSections(datacardInput);
      if reserved.Err? {
        return Err(reserved.error);
      }
      var signals := CollectProcesses(datacardInput, SignalType);
      if signals.Err? {
        return Err(signals.error);
      }
      // the background lookup fails exactly when the signal lookup does
      var backgrounds := CollectProcesses(datacardInput, BackgroundType);
      assert backgrounds.Ok?;
      var builder := new DatacardBuilder(name, datacardInput, reserved.value, signals.value, backgrounds.value);
      return Ok(builder);
    }

    /** `scale_lumi_by`: the scale is stored, and a scale other than 1 is announced in
        the card header. `scaleText` is `str(lumi_scaling)`. */
    method ScaleLumiBy(lumi: real, scaleText: string)
      modifies this`lumiScaling, this`cardHeader
      ensures lumiScaling == lumi
      ensures cardHeader == if lumi != 1.0 then old(cardHeader) + ScaledHeader + scaleText else old(cardHeader)
    {
      lumiScaling := lumi;
      if lumiScaling != 1.0 {
        cardHeader := cardHeader + ScaledHeader + scaleText;
      }
    }

    /** `_get_processes(process_type)` on the current input. */
    method GetProcesses(processType: string) returns (r: Result<seq<Key>>)
      ensures r == Processes(dInput, processType)
    {
      r := CollectProcesses(dInput, processType);
    }

    /** `_get_process_lines`: every bin is `cat_<datacard name>`, the rates are scaled by
        the current luminosity scale, and `'sys'` holds the placeholder once a process
        has been visited. */
    method GetProcessLines(rateText: (Value, real) -> Result<string>) returns (r: Result<ProcessLines>)
      requires Valid()
      ensures r == ProcessLinesSpec(Context(dInput, Ok(datacardName), lumiScaling, rateText),
                                    processList, |signalProcessList|, SysPlaceholder)
      ensures r.Ok? ==> r.value.sys == if processList == [] then "" else SysPlaceholder
      ensures r.Ok? && processList != [] ==>
                r.value.bin == Join(" ", Copies(BinPrefix + datacardName, |processList|))
    {
      var ctx := Context(dInput, Ok(datacardName), lumiScaling, rateText);
      r := BuildProcessLines(ctx, signalProcessList, bkgProcessList, SysPlaceholder);
      if r.Ok? && processList != [] {
        BinLineEntries(ctx, processList, |signalProcessList|, SysPlaceholder);
      }
    }

    /** `_get_systematics_lines`: one line per entry of `d_input['systematics']`. */
    method GetSystematicsLines() returns (r: Result<(nat, string)>)
      requires Valid()
      ensures r == SectionLines(dInput, processList)
    {
      var sysDict := Index(dInput, SystematicsSection);
      if sysDict.Err? {
        return Err(sysDict.error);
      }
      r := BuildSystematicsLines(sysDict.value, signalProcessList, bkgProcessList);
    }

    /** `_get_shapes_line`: the processes are scanned in order for a truthy `shape`;
        the first one sets `shapes_exist` and `shapes_output_file`, and the line names
        the bin `cat_<datacard name>`. `lumiText` is `'{0:3.2f}'.format(lumi_scaling)`. */
    method GetShapesLine(lumiText: string) returns (r: Result<string>)
      modifies this`shapesExist, this`shapesOutputFile
      ensures r == ShapesLine(dInput, processList, Ok(datacardName), WorkspaceFile(datacardName, lumiScaling, lumiText))
      ensures r.Ok? <==> ShapesScan(dInput, processList, 0).Ok?
      ensures shapesExist <==> ShapesScan(dInput, processList, 0) == Ok(true)
      ensures shapesOutputFile == if shapesExist then Some(WorkspaceFile(datacardName, lumiScaling, lumiText))
                                  else old(shapesOutputFile)
    {
      shapesExist := false;
      var found := ScanShapes(dInput, processList);
      if found.Err? {
        return Err(found.error);
      }
      if found.value {
        shapesExist := true;
        shapesOutputFile := Some(WorkspaceFile(datacardName, lumiScaling, lumiText));
        return Ok(ShapesLineText(BinPrefix + datacardName, shapesOutputFile.value));
      }
      return Ok(CountingComment);
    }
  }
}
