/** The tables of a `combine` datacard that both datacard builders (`LegoCards` in
    `LegoCards/build_datacard.py` and the older `DatacardBuilder` in `build_datacard.py`)
    compute from a resolved configuration: the signal/background process lists, the
    per-process `bin`/`process`/`rate` lines, the systematics table and the `shapes`
    line. The specification functions come with the loops of the builders, which both
    classes run on their own fields. */
module Datacard {
  import opened Text
  import opened Values

  // ---------------------------------------------------------------------------
  // Python subscription on configuration values
  // ---------------------------------------------------------------------------

  /** Python's `d[k]`: a plain dict raises `KeyError` for a missing key, a `nested_dict`
      hands back a fresh empty `nested_dict` (its `defaultdict` factory), and any other
      value raises `TypeError`. */
  function Index(d: Value, k: Key): (r: Result<Value>)
    ensures d.Dict? && k in d.entries ==> r == Ok(d.entries[k])
    ensures r.Err? <==> !d.Dict? || (k !in d.entries && !d.nested)
    ensures r.Err? ==> r.error == (if d.Dict? then KeyError(k) else TypeError)
  {
    if !d.Dict? then Err(TypeError)
    else if k in d.entries then Ok(d.entries[k])
    else if d.nested then Ok(Dict(map[], true))
    else Err(KeyError(k))
  }

  /** `try: ... except KeyError:` around a lookup: a `KeyError` becomes `None`, any other
      error goes on. */
  function CatchKeyError(r: Result<Value>): (c: Result<Option<Value>>)
    ensures r.Ok? ==> c == Ok(Some(r.value))
    ensures r.Err? && r.error.KeyError? ==> c == Ok(None)
    ensures r.Err? && !r.error.KeyError? ==> c == Err(r.error)
  {
    match r
    case Ok(v) => Ok(Some(v))
    case Err(e) => if e.KeyError? then Ok(None) else Err(e)
  }

  /** A finished prefix `done` in front of the outcome of the rest of a loop. */
  function PrependAll<T>(done: seq<T>, rest: Result<seq<T>>): Result<seq<T>> {
    if rest.Err? then rest else Ok(done + rest.value)
  }

  /** One more finished element moves from the rest of a loop to its prefix. */
  lemma PrependStep<T>(done: seq<T>, c: T, rest: Result<seq<T>>)
    ensures PrependAll(done, if rest.Err? then Err(rest.error) else Ok([c] + rest.value)) == PrependAll(done + [c], rest)
  {
    if rest.Ok? {
      assert done + ([c] + rest.value) == done + [c] + rest.value;
    }
  }

  lemma PrependNothing<T>(rest: Result<seq<T>>)
    ensures PrependAll([], rest) == rest
  {
    if rest.Ok? {
      assert [] + rest.value == rest.value;
    }
  }

  lemma PrependEnd<T>(done: seq<T>)
    ensures PrependAll(done, Ok([])) == Ok(done)
  {
    assert done + [] == done;
  }

  // ---------------------------------------------------------------------------
  // _get_processes
  // ---------------------------------------------------------------------------

  /** `p_setup['is_signal']` taken as a condition. */
  function SignalFlag(setup: Value): (r: Result<bool>)
    ensures setup.Dict? && "is_signal" in setup.entries ==> r == Ok(Truthy(setup.entries["is_signal"]))
  {
    var flag :- Index(setup, "is_signal");
    Ok(Truthy(flag))
  }

  /** The processes whose setup cannot tell whether they are signals. */
  function BadSetups(procs: map<Key, Value>): set<Key> {
    set p | p in procs && SignalFlag(procs[p]).Err?
  }

  function SignalIds(procs: map<Key, Value>): set<Key> {
    set p | p in procs && SignalFlag(procs[p]) == Ok(true)
  }

  function BackgroundIds(procs: map<Key, Value>): set<Key> {
    set p | p in procs && SignalFlag(procs[p]) == Ok(false)
  }

  /** `_get_processes(process_type)` on the configuration `dInput`: the sorted signal
      names when `process_type` mentions `signal`, then the sorted background names when
      it mentions `background`. The loop over the processes stops at the first setup
      without a usable `is_signal` (keys are visited in increasing order). */
  function Processes(dInput: Value, processType: string): (r: Result<seq<Key>>)
    ensures r.Ok? ==> Index(dInput, "processes").Ok? && Index(dInput, "processes").value.Dict?
    ensures r.Ok? ==> BadSetups(Index(dInput, "processes").value.entries) == {}
  {
    var procs :- Index(dInput, "processes");
    if !procs.Dict? then Err(AttributeError("iteritems"))
    else ProcessesOf(procs.entries, processType)
  }

  /** `_get_processes` once the process dict `procs` is found. */
  function ProcessesOf(procs: map<Key, Value>, processType: string): (r: Result<seq<Key>>)
    ensures r.Ok? <==> BadSetups(procs) == {}
  {
    if BadSetups(procs) != {} then
      Err(SignalFlag(procs[Least(BadSetups(procs))]).error)
    else
      Ok((if Contains(Lower(processType), "signal") then SortedOf(SignalIds(procs)) else [])
         + (if Contains(Lower(processType), "background") then SortedOf(BackgroundIds(procs)) else []))
  }

  predicate Distinct(s: seq<Key>) {
    forall i, j :: 0 <= i < j < |s| ==> s[i] != s[j]
  }

  /** What the loop of `_get_processes` has done once the processes outside `todo` are
      visited: each of them is in the signal or the background list, as its setup says,
      once, and none of them has a bad setup. */
  ghost predicate Classified(entries: map<Key, Value>, todo: set<Key>, sig: seq<Key>, bkg: seq<Key>) {
    && todo <= entries.Keys
    && BadSetups(entries) <= todo
    && (forall p :: p in sig <==> p in SignalIds(entries) && p !in todo)
    && (forall p :: p in bkg <==> p in BackgroundIds(entries) && p !in todo)
    && Distinct(sig) && Distinct(bkg)
  }

  lemma ClassifyStep(entries: map<Key, Value>, todo: set<Key>, sig: seq<Key>, bkg: seq<Key>, pId: Key)
    requires Classified(entries, todo, sig, bkg) && pId in todo && SignalFlag(entries[pId]).Ok?
    ensures var isSignal := SignalFlag(entries[pId]).value;
            Classified(entries, todo - {pId}, if isSignal then sig + [pId] else sig, if isSignal then bkg else bkg + [pId])
  {
  }

  /** The first process the loop finds with a bad setup is the least bad one. */
  lemma FirstBadSetup(entries: map<Key, Value>, todo: set<Key>, sig: seq<Key>, bkg: seq<Key>)
    requires Classified(entries, todo, sig, bkg) && todo != {} && SignalFlag(entries[Least(todo)]).Err?
    ensures BadSetups(entries) != {} && Least(BadSetups(entries)) == Least(todo)
  {
    var pId := Least(todo);
    assert pId in BadSetups(entries);
    assert IsMin(pId, BadSetups(entries));
    MinUnique(BadSetups(entries));
  }

  /** After the last visit, `sorted` of each list is the increasing list of its set. */
  lemma ClassifiedAll(entries: map<Key, Value>, sig: seq<Key>, bkg: seq<Key>)
    requires Classified(entries, {}, sig, bkg)
    ensures BadSetups(entries) == {}
    ensures SortStrings(sig) == SortedOf(SignalIds(entries))
    ensures SortStrings(bkg) == SortedOf(BackgroundIds(entries))
  {
    SortDistinct(sig, SignalIds(entries));
    SortDistinct(bkg, BackgroundIds(entries));
  }

  /** The two `if`s at the end of `_get_processes` build the list `ProcessesOf` names. */
  lemma SelectedLists(entries: map<Key, Value>, processType: string, sig: seq<Key>, bkg: seq<Key>, processList: seq<Key>)
    requires BadSetups(entries) == {}
    requires SortStrings(sig) == SortedOf(SignalIds(entries))
    requires SortStrings(bkg) == SortedOf(BackgroundIds(entries))
    requires processList == ([] + (if Contains(Lower(processType), "signal") then SortStrings(sig) else []))
                            + (if Contains(Lower(processType), "background") then SortStrings(bkg) else [])
    ensures ProcessesOf(entries, processType) == Ok(processList)
  {
    assert [] + (if Contains(Lower(processType), "signal") then SortStrings(sig) else [])
        == (if Contains(Lower(processType), "signal") then SortStrings(sig) else []);
  }

  /** `_get_processes`: the process dict is looked up, its processes split into signals
      and backgrounds, and the lists the process type asks for are concatenated. */
  method CollectProcesses(dInput: Value, processType: string) returns (r: Result<seq<Key>>)
    ensures r == Processes(dInput, processType)
  {
    var procs := Index(dInput, "processes");
    if procs.Err? {
      return Err(procs.error);
    }
    if !procs.value.Dict? {
      return Err(AttributeError("iteritems"));
    }
    var lists := SplitProcesses(procs.value.entries);
    if lists.Err? {
      return Err(lists.error);
    }
    var (sigProcessList, bkgProcessList) := lists.value;
    var processList: seq<Key> := [];
    if Contains(Lower(processType), "signal") {
      processList := processList + SortStrings(sigProcessList);
    }
    if Contains(Lower(processType), "background") {
      processList := processList + SortStrings(bkgProcessList);
    }
    SelectedLists(procs.value.entries, processType, sigProcessList, bkgProcessList, processList);
    return Ok(processList);
  }

  /** The loop of `_get_processes`: one visit per process, appending its name to the
      signal or the background list. The lists hold each signal and each background
      once; the first process (in visiting order) whose setup cannot tell stops it. */
  method SplitProcesses(entries: map<Key, Value>) returns (r: Result<(seq<Key>, seq<Key>)>)
    ensures r.Err? <==> BadSetups(entries) != {}
    ensures r.Err? ==> r.error == SignalFlag(entries[Least(BadSetups(entries))]).error
    ensures r.Ok? ==> && Classified(entries, {}, r.value.0, r.value.1)
                      && SortStrings(r.value.0) == SortedOf(SignalIds(entries))
                      && SortStrings(r.value.1) == SortedOf(BackgroundIds(entries))
  {
    var sigProcessList: seq<Key> := [];
    var bkgProcessList: seq<Key> := [];
    var todo := entries.Keys;
    while todo != {}
      invariant Classified(entries, todo, sigProcessList, bkgProcessList)
      decreases |todo|
    {
      var pId := Least(todo);
      var isSignal := SignalFlag(entries[pId]);
      if isSignal.Err? {
        FirstBadSetup(entries, todo, sigProcessList, bkgProcessList);
        return Err(isSignal.error);
      }
      ClassifyStep(entries, todo, sigProcessList, bkgProcessList, pId);
      if isSignal.value {
        sigProcessList := sigProcessList + [pId];
      } else {
        bkgProcessList := bkgProcessList + [pId];
      }
      todo := todo - {pId};
    }
    ClassifiedAll(entries, sigProcessList, bkgProcessList);
    return Ok((sigProcessList, bkgProcessList));
  }

  /** A lower-case word mentions itself, and not a word whose first letter it lacks. */
  lemma WordFacts(word: string, other: string)
    requires forall i :: 0 <= i < |word| ==> 'a' <= word[i] <= 'z'
    requires other != [] && other[0] !in word
    ensures Contains(Lower(word), word) && !Contains(Lower(word), other)
  {
    LowerNoCapitals(word);
    ContainsSelf(word);
    ContainsNeedsFirst(word, other);
  }

  /** `_get_processes(process_type)` succeeds when every setup says whether it is a
      signal; the signals and the backgrounds then split the processes in two, and the
      list holds the sorted signals when the type mentions `signal`, then the sorted
      backgrounds when it mentions `background`. */
  lemma ProcessPartition(dInput: Value, processType: string)
    requires Processes(dInput, processType).Ok?
    ensures var procs := Index(dInput, "processes").value.entries;
            && SignalIds(procs) + BackgroundIds(procs) == procs.Keys
            && SignalIds(procs) !! BackgroundIds(procs)
            && (forall p | p in SignalIds(procs) :: Truthy(Index(procs[p], "is_signal").value))
            && (forall p | p in BackgroundIds(procs) :: !Truthy(Index(procs[p], "is_signal").value))
            && Processes(dInput, processType).value
               == (if Contains(Lower(processType), "signal") then SortedOf(SignalIds(procs)) else [])
                  + (if Contains(Lower(processType), "background") then SortedOf(BackgroundIds(procs)) else [])
  {
    var procs := Index(dInput, "processes").value.entries;
    forall p | p in procs ensures p in SignalIds(procs) || p in BackgroundIds(procs) {
      assert p !in BadSetups(procs);
    }
  }

  /** A process type that mentions `signal` and not `background` selects the sorted
      signals alone; one that mentions `background` and not `signal`, the sorted
      backgrounds alone. */
  lemma OneKindOfProcess(procs: map<Key, Value>, processType: string)
    requires BadSetups(procs) == {}
    ensures Contains(Lower(processType), "signal") && !Contains(Lower(processType), "background")
            ==> ProcessesOf(procs, processType) == Ok(SortedOf(SignalIds(procs)))
    ensures Contains(Lower(processType), "background") && !Contains(Lower(processType), "signal")
            ==> ProcessesOf(procs, processType) == Ok(SortedOf(BackgroundIds(procs)))
  {
    assert SortedOf(SignalIds(procs)) + [] == SortedOf(SignalIds(procs));
    assert [] + SortedOf(BackgroundIds(procs)) == SortedOf(BackgroundIds(procs));
  }

  /** The signal list of the constructors, `_get_processes('signal')`: the sorted signal
      names. */
  lemma ConstructorSignals(procs: map<Key, Value>)
    requires BadSetups(procs) == {}
    ensures ProcessesOf(procs, "signal") == Ok(SortedOf(SignalIds(procs)))
  {
    WordFacts("signal", "background");
    OneKindOfProcess(procs, "signal");
  }

  /** The background list of the constructors, `_get_processes('background')`: the
      sorted background names. */
  lemma ConstructorBackgrounds(procs: map<Key, Value>)
    requires BadSetups(procs) == {}
    ensures ProcessesOf(procs, "background") == Ok(SortedOf(BackgroundIds(procs)))
  {
    WordFacts("background", "signal");
    OneKindOfProcess(procs, "background");
  }

  // ---------------------------------------------------------------------------
  // _get_process_lines
  // ---------------------------------------------------------------------------

  /** The number `combine` gets for the process at position `i` of the process list when
      its first `nsig` entries are signals: `enumerate(signals, start=-(nsig-1))`, then
      `enumerate(backgrounds, start=1)`. */
  function ProcessNumber(i: int, nsig: nat): (n: int)
    ensures i < nsig ==> n <= 0
    ensures i >= nsig ==> n >= 1
  {
    if i < nsig then i - (nsig - 1) else 1 + (i - nsig)
  }

  /** The numbers run without gaps from `-(nsig-1)` through `0` over the signals and from
      `1` through `nbkg` over the backgrounds. */
  lemma NumbersConsecutive(nsig: nat, nbkg: nat)
    ensures forall i :: 0 < i < nsig + nbkg ==> ProcessNumber(i, nsig) == ProcessNumber(i - 1, nsig) + 1
    ensures nsig > 0 ==> ProcessNumber(0, nsig) == -(nsig - 1) && ProcessNumber(nsig - 1, nsig) == 0
    ensures nbkg > 0 ==> ProcessNumber(nsig, nsig) == 1 && ProcessNumber(nsig + nbkg - 1, nsig) == nbkg
  {
  }

  /** What the per-process lines are computed from: the configuration, the text after
      `cat_` in the `bin` line (or the error reading it), the luminosity scale, and
      `str(float(rate) * scale)`, which is floating-point work outside the model. */
  datatype Context = Context(dInput: Value, category: Result<string>, lumi: real,
                             rateText: (Value, real) -> Result<string>)

  const ProcessesKey: string := "processes"
  const RateKey: string := "rate"
  const BinPrefix: string := "cat_"

  /** One column of the process block. */
  datatype Column = Column(bin: string, name: string, number: int, rate: string)

  /** The dict `process_lines` the builders return. */
  datatype ProcessLines = ProcessLines(bin: string, name: string, number: string, rate: string, sys: string)

  /** The column of process `name` with number `number`: the setup is looked up, then the
      category, then the rate. */
  function ColumnOf(ctx: Context, name: Key, number: int): (r: Result<Column>)
    ensures r.Ok? ==> r.value.name == name && r.value.number == number
    ensures r.Ok? ==> ctx.category.Ok? && r.value.bin == BinPrefix + ctx.category.value
  {
    var procs :- Index(ctx.dInput, ProcessesKey);
    var setup :- Index(procs, name);
    var cat :- ctx.category;
    var rate :- Index(setup, RateKey);
    var rateStr :- ctx.rateText(rate, ctx.lumi);
    Ok(Column(BinPrefix + cat, name, number, rateStr))
  }

  /** The columns of the processes from position `i` on, stopping at the first error. */
  function ColumnsFrom(ctx: Context, names: seq<Key>, nsig: nat, i: nat): (r: Result<seq<Column>>)
    requires i <= |names|
    ensures r.Ok? ==> |r.value| == |names| - i
    decreases |names| - i
  {
    if i == |names| then Ok([])
    else
      var c :- ColumnOf(ctx, names[i], ProcessNumber(i, nsig));
      var rest :- ColumnsFrom(ctx, names, nsig, i + 1);
      Ok([c] + rest)
  }

  function Bins(cols: seq<Column>): (r: seq<string>)
    ensures |r| == |cols| && forall i :: 0 <= i < |cols| ==> r[i] == cols[i].bin
  {
    seq(|cols|, i requires 0 <= i < |cols| => cols[i].bin)
  }

  function Names(cols: seq<Column>): (r: seq<string>)
    ensures |r| == |cols| && forall i :: 0 <= i < |cols| ==> r[i] == cols[i].name
  {
    seq(|cols|, i requires 0 <= i < |cols| => cols[i].name)
  }

  function Numbers(cols: seq<Column>): (r: seq<string>)
    ensures |r| == |cols| && forall i :: 0 <= i < |cols| ==> r[i] == IntToString(cols[i].number)
  {
    seq(|cols|, i requires 0 <= i < |cols| => IntToString(cols[i].number))
  }

  function Rates(cols: seq<Column>): (r: seq<string>)
    ensures |r| == |cols| && forall i :: 0 <= i < |cols| ==> r[i] == cols[i].rate
  {
    seq(|cols|, i requires 0 <= i < |cols| => cols[i].rate)
  }

  /** The lines of a process block: each field of the columns joined by single spaces. */
  function LinesOf(cols: seq<Column>, sys: string): ProcessLines {
    ProcessLines(Join(" ", Bins(cols)), Join(" ", Names(cols)), Join(" ", Numbers(cols)), Join(" ", Rates(cols)), sys)
  }

  /** `n` copies of `x`. */
  function Copies(x: string, n: nat): (r: seq<string>)
    ensures |r| == n && forall j :: 0 <= j < n ==> r[j] == x
  {
    seq(n, _ => x)
  }

  /** The names of the columns from position `i` on are the process names from there. */
  lemma {:induction false} ColumnNames(ctx: Context, names: seq<Key>, nsig: nat, i: nat)
    requires i <= |names| && ColumnsFrom(ctx, names, nsig, i).Ok?
    ensures Names(ColumnsFrom(ctx, names, nsig, i).value) == names[i..]
    decreases |names| - i
  {
    if i < |names| {
      var cols := ColumnsFrom(ctx, names, nsig, i).value;
      var rest := ColumnsFrom(ctx, names, nsig, i + 1).value;
      ColumnNames(ctx, names, nsig, i + 1);
      assert cols == [cols[0]] + rest;
      assert Names(cols) == [cols[0].name] + Names(rest);
      assert names[i..] == [names[i]] + names[i + 1..];
    }
  }

  /** The number of each column from position `i` on is that of its position. */
  lemma {:induction false} ColumnNumbers(ctx: Context, names: seq<Key>, nsig: nat, i: nat)
    requires i <= |names| && ColumnsFrom(ctx, names, nsig, i).Ok?
    ensures var cols := ColumnsFrom(ctx, names, nsig, i).value;
            forall j :: 0 <= j < |cols| ==> cols[j].number == ProcessNumber(i + j, nsig)
    decreases |names| - i
  {
    if i < |names| {
      var cols := ColumnsFrom(ctx, names, nsig, i).value;
      var rest := ColumnsFrom(ctx, names, nsig, i + 1).value;
      ColumnNumbers(ctx, names, nsig, i + 1);
      assert cols == [cols[0]] + rest;
      forall j | 0 < j < |cols| ensures cols[j].number == ProcessNumber(i + j, nsig) {
        assert cols[j] == rest[j - 1];
        assert (i + 1) + (j - 1) == i + j;
      }
    }
  }

  /** Every column from position `i` on is in the bin of the category. */
  lemma {:induction false} ColumnBins(ctx: Context, names: seq<Key>, nsig: nat, i: nat)
    requires i <= |names| && ColumnsFrom(ctx, names, nsig, i).Ok? && ctx.category.Ok?
    ensures Bins(ColumnsFrom(ctx, names, nsig, i).value) == Copies(BinPrefix + ctx.category.value, |names| - i)
    decreases |names| - i
  {
    if i < |names| {
      var cols := ColumnsFrom(ctx, names, nsig, i).value;
      var rest := ColumnsFrom(ctx, names, nsig, i + 1).value;
      ColumnBins(ctx, names, nsig, i + 1);
      assert cols == [cols[0]] + rest;
      assert Bins(cols) == [cols[0].bin] + Bins(rest);
    }
  }

  /** `_get_process_lines` for the process list `names` whose first `nsig` entries are
      signals. `sysInLoop` is what the loop body stores under `'sys'` (the older builder
      stores a placeholder, the newer one nothing), so `'sys'` keeps its empty start
      when there is no process. */
  function ProcessLinesSpec(ctx: Context, names: seq<Key>, nsig: nat, sysInLoop: string): (r: Result<ProcessLines>)
    ensures r.Ok? ==> r.value.sys == if names == [] then "" else sysInLoop
  {
    var cols :- ColumnsFrom(ctx, names, nsig, 0);
    Ok(LinesOf(cols, if names == [] then "" else sysInLoop))
  }

  /** One more column extends every line by a space (none before the first) and its
      field. */
  lemma LinesStep(cols: seq<Column>, c: Column, sys: string)
    ensures var d := if cols == [] then "" else " ";
            var before := LinesOf(cols, sys);
            LinesOf(cols + [c], sys)
              == ProcessLines(before.bin + d + c.bin, before.name + d + c.name,
                              before.number + d + IntToString(c.number), before.rate + d + c.rate, sys)
  {
    assert Bins(cols + [c]) == Bins(cols) + [c.bin];
    assert Names(cols + [c]) == Names(cols) + [c.name];
    assert Numbers(cols + [c]) == Numbers(cols) + [IntToString(c.number)];
    assert Rates(cols + [c]) == Rates(cols) + [c.rate];
    JoinSnoc(" ", Bins(cols), c.bin);
    JoinSnoc(" ", Names(cols), c.name);
    JoinSnoc(" ", Numbers(cols), IntToString(c.number));
    JoinSnoc(" ", Rates(cols), c.rate);
  }

  /** `dict(enumerate(s, start))`: position `i` of `s` under the key `start + i`. */
  function Enumerate(s: seq<Key>, start: int): (m: map<int, Key>)
    ensures forall n :: n in m <==> start <= n < start + |s|
    ensures forall n :: start <= n < start + |s| ==> m[n] == s[n - start]
    decreases |s|
  {
    if s == [] then map[]
    else Enumerate(s[1..], start + 1)[start := s[0]]
  }

  /** The four `+=` of one iteration of `_get_process_lines`, with the delimiter empty
      the first time only, extend the lines by one column. */
  lemma AppendColumnLines(done: seq<Column>, c: Column, sys: string, lines: ProcessLines, delimiter: string)
    requires lines == LinesOf(done, if done == [] then "" else sys)
    requires delimiter == if done == [] then "" else " "
    ensures ProcessLines(lines.bin + delimiter + c.bin, lines.name + delimiter + c.name,
                         lines.number + delimiter + IntToString(c.number), lines.rate + delimiter + c.rate, sys)
            == LinesOf(done + [c], sys)
  {
    LinesStep(done, c, sys);
  }

  /** The body of the loops of `_get_process_lines`: the setup, the category and the
      rate are looked up and the four lines extended by the delimiter and the process's
      fields. */
  method AddProcess(ctx: Context, pName: Key, pNumber: int, delimiter: string, lines: ProcessLines, sysInLoop: string)
    returns (r: Result<ProcessLines>)
    ensures ColumnOf(ctx, pName, pNumber).Err? ==> r == Err(ColumnOf(ctx, pName, pNumber).error)
    ensures ColumnOf(ctx, pName, pNumber).Ok? ==>
              var c := ColumnOf(ctx, pName, pNumber).value;
              r == Ok(ProcessLines(lines.bin + delimiter + c.bin, lines.name + delimiter + c.name,
                                   lines.number + delimiter + IntToString(c.number), lines.rate + delimiter + c.rate, sysInLoop))
  {
    var procs :- Index(ctx.dInput, ProcessesKey);
    var pSetup :- Index(procs, pName);
    var category :- ctx.category;
    var rate :- Index(pSetup, RateKey);
    var rateStr :- ctx.rateText(rate, ctx.lumi);
    var c := Column(BinPrefix + category, pName, pNumber, rateStr);
    return Ok(ProcessLines(lines.bin + delimiter + c.bin, lines.name + delimiter + c.name,
                           lines.number + delimiter + IntToString(c.number), lines.rate + delimiter + c.rate, sysInLoop));
  }

  /** One more iteration of the loops of `_get_process_lines`: the column of the next
      process joins the finished ones, or its error is the outcome. */
  lemma ColumnsStep(ctx: Context, names: seq<Key>, nsig: nat, done: seq<Column>, pName: Key, pNumber: int, column: Result<Column>)
    requires |done| < |names| && pName == names[|done|] && pNumber == ProcessNumber(|done|, nsig)
    requires column == ColumnOf(ctx, pName, pNumber)
    requires ColumnsFrom(ctx, names, nsig, 0) == PrependAll(done, ColumnsFrom(ctx, names, nsig, |done|))
    ensures column.Err? ==> ColumnsFrom(ctx, names, nsig, 0) == Err(column.error)
    ensures column.Ok? ==> ColumnsFrom(ctx, names, nsig, 0) == PrependAll(done + [column.value], ColumnsFrom(ctx, names, nsig, |done| + 1))
  {
    if column.Ok? {
      PrependStep(done, column.value, ColumnsFrom(ctx, names, nsig, |done| + 1));
    }
  }

  /** After the last iteration the finished columns are all the columns. */
  lemma ColumnsDone(ctx: Context, names: seq<Key>, nsig: nat, done: seq<Column>, sysInLoop: string)
    requires |done| == |names|
    requires ColumnsFrom(ctx, names, nsig, 0) == PrependAll(done, ColumnsFrom(ctx, names, nsig, |done|))
    ensures ProcessLinesSpec(ctx, names, nsig, sysInLoop) == Ok(LinesOf(done, if done == [] then "" else sysInLoop))
  {
    PrependEnd(done);
  }


  /** The keys `first`, ..., `first + count - 1` of `procDict` name the processes at
      positions `offset`, ..., `offset + count - 1` of `names`, and are their numbers. */
  ghost predicate Numbered(procDict: map<int, Key>, first: int, count: nat, names: seq<Key>, offset: nat, nsig: nat) {
    && offset + count <= |names|
    && forall n :: first <= n < first + count ==>
         n in procDict && procDict[n] == names[offset + (n - first)] && ProcessNumber(offset + (n - first), nsig) == n
  }

  /** The first dict of `_get_process_lines`, `dict(enumerate(signals, -(nsig-1)))`,
      numbers the signals. */
  lemma EnumeratedSignals(signals: seq<Key>, backgrounds: seq<Key>, sigDict: map<int, Key>)
    requires sigDict == Enumerate(signals, -(|signals| - 1))
    ensures Numbered(sigDict, -(|signals| - 1), |signals|, signals + backgrounds, 0, |signals|)
  {
    var nsig := |signals|;
    forall n | -(nsig - 1) <= n < 1
      ensures n in sigDict && sigDict[n] == (signals + backgrounds)[n + (nsig - 1)]
      ensures ProcessNumber(n + (nsig - 1), nsig) == n
    {
      assert sigDict[n] == signals[n + (nsig - 1)];
    }
  }

  /** The second dict of `_get_process_lines`, `dict(enumerate(backgrounds, 1))`,
      numbers the backgrounds. */
  lemma EnumeratedBackgrounds(signals: seq<Key>, backgrounds: seq<Key>, bkgDict: map<int, Key>)
    requires bkgDict == Enumerate(backgrounds, 1)
    ensures Numbered(bkgDict, 1, |backgrounds|, signals + backgrounds, |signals|, |signals|)
  {
    var nsig := |signals|;
    forall n | 1 <= n < 1 + |backgrounds|
      ensures n in bkgDict && bkgDict[n] == (signals + backgrounds)[nsig + (n - 1)]
      ensures ProcessNumber(nsig + (n - 1), nsig) == n
    {
      assert bkgDict[n] == backgrounds[n - 1];
    }
  }

  /** The key `n` of a numbering dict names the process at its position. */
  lemma NumberedAt(procDict: map<int, Key>, first: int, count: nat, names: seq<Key>, offset: nat, nsig: nat, n: int)
    requires Numbered(procDict, first, count, names, offset, nsig) && first <= n < first + count
    ensures offset + (n - first) < |names| && n in procDict
    ensures procDict[n] == names[offset + (n - first)] && ProcessNumber(offset + (n - first), nsig) == n
  {
  }

  /** The loops of `_get_process_lines` have handled the processes `done` (the first
      `|done|` of `names`) without error, and the four lines hold their columns. */
  ghost predicate Progress(ctx: Context, names: seq<Key>, nsig: nat, sysInLoop: string, done: seq<Column>, lines: ProcessLines) {
    && |done| <= |names|
    && ColumnsFrom(ctx, names, nsig, 0) == PrependAll(done, ColumnsFrom(ctx, names, nsig, |done|))
    && lines == LinesOf(done, if done == [] then "" else sysInLoop)
  }

  /** A column appended with the right delimiter keeps the loops' progress. */
  lemma ProgressStep(ctx: Context, names: seq<Key>, nsig: nat, sysInLoop: string, done: seq<Column>, lines: ProcessLines,
                     c: Column, delimiter: string)
    requires |done| < |names| && ColumnOf(ctx, names[|done|], ProcessNumber(|done|, nsig)) == Ok(c)
    requires delimiter == if done == [] then "" else " "
    requires Progress(ctx, names, nsig, sysInLoop, done, lines)
    ensures Progress(ctx, names, nsig, sysInLoop, done + [c],
                     ProcessLines(lines.bin + delimiter + c.bin, lines.name + delimiter + c.name,
                                  lines.number + delimiter + IntToString(c.number), lines.rate + delimiter + c.rate, sysInLoop))
  {
    ColumnsStep(ctx, names, nsig, done, names[|done|], ProcessNumber(|done|, nsig), Ok(c));
    AppendColumnLines(done, c, sysInLoop, lines, delimiter);
  }

  /** Before the loops no process is handled and the four lines are empty. */
  lemma ProgressStart(ctx: Context, names: seq<Key>, nsig: nat, sysInLoop: string)
    ensures Progress(ctx, names, nsig, sysInLoop, [], ProcessLines("", "", "", "", ""))
  {
    PrependNothing(ColumnsFrom(ctx, names, nsig, 0));
  }

  /** One iteration of the loops of `_get_process_lines`, for the process at position
      `|done|` of `names`: its error ends the loops, or its column joins the others. */
  method ExtendLines(ctx: Context, procDict: map<int, Key>, pNumber: int, delimiter: string, lines: ProcessLines, sysInLoop: string,
                     ghost names: seq<Key>, ghost nsig: nat, ghost done: seq<Column>)
    returns (r: Result<ProcessLines>, ghost c: Column)
    requires |done| < |names| && pNumber in procDict && procDict[pNumber] == names[|done|] && pNumber == ProcessNumber(|done|, nsig)
    requires delimiter == if done == [] then "" else " "
    requires Progress(ctx, names, nsig, sysInLoop, done, lines)
    ensures r.Err? ==> ColumnsFrom(ctx, names, nsig, 0) == Err(r.error)
    ensures r.Ok? ==> Progress(ctx, names, nsig, sysInLoop, done + [c], r.value)
  {
    var pName := procDict[pNumber];
    r := AddProcess(ctx, pName, pNumber, delimiter, lines, sysInLoop);
    c := Column("", pName, pNumber, "");
    if r.Ok? {
      c := ColumnOf(ctx, pName, pNumber).value;
      ProgressStep(ctx, names, nsig, sysInLoop, done, lines, c, delimiter);
    } else {
      ColumnsStep(ctx, names, nsig, done, pName, pNumber, ColumnOf(ctx, pName, pNumber));
    }
  }

  /** One of the two loops of `_get_process_lines`: over the keys `first`, ...,
      `first + count - 1` of `procDict` in increasing order, each appending a delimiter
      (empty the first time, a space after that) and the process's fields to the four
      lines. `done` are the columns of the processes of `names` handled before. */
  method AppendColumns(ctx: Context, procDict: map<int, Key>, first: int, count: nat,
                       lines: ProcessLines, isFirst: bool, sysInLoop: string,
                       ghost names: seq<Key>, ghost nsig: nat, ghost done: seq<Column>)
    returns (r: Result<(ProcessLines, bool)>, ghost after: seq<Column>)
    requires |done| + count <= |names|
    requires Numbered(procDict, first, count, names, |done|, nsig)
    requires isFirst <==> done == []
    requires Progress(ctx, names, nsig, sysInLoop, done, lines)
    ensures r.Err? ==> ColumnsFrom(ctx, names, nsig, 0) == Err(r.error)
    ensures r.Ok? ==> && |after| == |done| + count
                      && (r.value.1 <==> after == [])
                      && Progress(ctx, names, nsig, sysInLoop, after, r.value.0)
  {
    var processLines := lines;
    var stillFirst := isFirst;
    after := done;
    for pNumber := first to first + count
      invariant stillFirst <==> after == []
      invariant |after| == |done| + (pNumber - first)
      invariant Progress(ctx, names, nsig, sysInLoop, after, processLines)
    {
      var delimiter := " ";
      if stillFirst {
        delimiter := "";
        stillFirst := false;
      }
      ghost var column;
      var extended;
      NumberedAt(procDict, first, count, names, |done|, nsig, pNumber);
      extended, column := ExtendLines(ctx, procDict, pNumber, delimiter, processLines, sysInLoop, names, nsig, after);
      if extended.Err? {
        return Err(extended.error), after;
      }
      processLines := extended.value;
      after := after + [column];
    }
    return Ok((processLines, stillFirst)), after;
  }

  /** `_get_process_lines`: the signals numbered from `-(nsig-1)` through `0` by
      `dict(enumerate(signals, start=-(nsig-1)))`, the backgrounds from `1` by
      `dict(enumerate(backgrounds, start=1))`, and the two loops over them. */
  method BuildProcessLines(ctx: Context, signals: seq<Key>, backgrounds: seq<Key>, sysInLoop: string)
    returns (r: Result<ProcessLines>)
    ensures r == ProcessLinesSpec(ctx, signals + backgrounds, |signals|, sysInLoop)
  {
    ghost var names := signals + backgrounds;
    var nsig := |signals|;
    var processLines := ProcessLines("", "", "", "", "");
    var signalProcessDict := Enumerate(signals, -(nsig - 1));
    var bkgProcessDict := Enumerate(backgrounds, 1);
    ProgressStart(ctx, names, nsig, sysInLoop);
    EnumeratedSignals(signals, backgrounds, signalProcessDict);
    EnumeratedBackgrounds(signals, backgrounds, bkgProcessDict);
    var isFirst := true;
    ghost var done: seq<Column> := [];
    var signalPart;
    signalPart, done := AppendColumns(ctx, signalProcessDict, -(nsig - 1), nsig, processLines, isFirst, sysInLoop, names, nsig, done);
    if signalPart.Err? {
      return Err(signalPart.error);
    }
    processLines, isFirst := signalPart.value.0, signalPart.value.1;
    assert |done| == nsig;
    var backgroundPart;
    backgroundPart, done := AppendColumns(ctx, bkgProcessDict, 1, |backgrounds|, processLines, isFirst, sysInLoop, names, nsig, done);
    if backgroundPart.Err? {
      return Err(backgroundPart.error);
    }
    ColumnsDone(ctx, names, nsig, done, sysInLoop);
    return Ok(backgroundPart.value.0);
  }

  /** The `process` number line lists `IntToString` of each process's number. */
  lemma NumberLineEntries(ctx: Context, names: seq<Key>, nsig: nat, sysInLoop: string)
    requires ProcessLinesSpec(ctx, names, nsig, sysInLoop).Ok?
    ensures ProcessLinesSpec(ctx, names, nsig, sysInLoop).value.number
            == Join(" ", seq(|names|, i => IntToString(ProcessNumber(i, nsig))))
  {
    var cols := ColumnsFrom(ctx, names, nsig, 0).value;
    ColumnNumbers(ctx, names, nsig, 0);
    assert Numbers(cols) == seq(|names|, i => IntToString(ProcessNumber(i, nsig)));
  }

  /** Reading the `process` number line back: split on spaces, it gives one integer per
      process, `-(nsig-1)` for the first and one more for each next. */
  lemma NumberLineReadsBack(ctx: Context, names: seq<Key>, nsig: nat, sysInLoop: string)
    requires names != []
    requires ProcessLinesSpec(ctx, names, nsig, sysInLoop).Ok?
    ensures var parts := Split(ProcessLinesSpec(ctx, names, nsig, sysInLoop).value.number, ' ');
            && |parts| == |names|
            && forall i :: 0 <= i < |parts| ==>
                 (&& parts[i] != []
                  && (forall k :: 0 <= k < |parts[i]| ==> IsDigit(parts[i][k]) || (k == 0 && parts[i][k] == '-'))
                  && ParseInt(parts[i]) == i - (nsig - 1))
  {
    NumberLineEntries(ctx, names, nsig, sysInLoop);
    var nums := seq(|names|, i => IntToString(ProcessNumber(i, nsig)));
    forall i | 0 <= i < |nums| ensures ' ' !in nums[i] {
      var s := nums[i];
      assert forall k :: 0 <= k < |s| ==> s[k] != ' ';
    }
    SplitJoin(nums, ' ');
    forall i | 0 <= i < |nums| ensures ParseInt(nums[i]) == i - (nsig - 1) {
      IntToStringRoundTrip(ProcessNumber(i, nsig));
    }
  }

  /** The `process` name line is the process list joined by spaces. */
  lemma NameLineIsJoin(ctx: Context, names: seq<Key>, nsig: nat, sysInLoop: string)
    requires ProcessLinesSpec(ctx, names, nsig, sysInLoop).Ok?
    ensures ProcessLinesSpec(ctx, names, nsig, sysInLoop).value.name == Join(" ", names)
  {
    ColumnNames(ctx, names, nsig, 0);
    assert names[0..] == names;
  }

  /** Reading the `process` name line back: with names free of spaces, splitting it on
      spaces gives the process list. */
  lemma NameLineReadsBack(ctx: Context, names: seq<Key>, nsig: nat, sysInLoop: string)
    requires names != []
    requires forall i :: 0 <= i < |names| ==> ' ' !in names[i]
    requires ProcessLinesSpec(ctx, names, nsig, sysInLoop).Ok?
    ensures Split(ProcessLinesSpec(ctx, names, nsig, sysInLoop).value.name, ' ') == names
  {
    NameLineIsJoin(ctx, names, nsig, sysInLoop);
    SplitJoin(names, ' ');
  }

  /** Every entry of the `bin` line is `cat_` followed by the category text. */
  lemma BinLineEntries(ctx: Context, names: seq<Key>, nsig: nat, sysInLoop: string)
    requires names != []
    requires ProcessLinesSpec(ctx, names, nsig, sysInLoop).Ok?
    ensures ctx.category.Ok?
    ensures ProcessLinesSpec(ctx, names, nsig, sysInLoop).value.bin
            == Join(" ", Copies(BinPrefix + ctx.category.value, |names|))
  {
    assert ColumnOf(ctx, names[0], ProcessNumber(0, nsig)).Ok?;
    ColumnBins(ctx, names, nsig, 0);
  }

  // ---------------------------------------------------------------------------
  // _get_systematics_lines
  // ---------------------------------------------------------------------------

  /** The table entry of process `proc` for one systematic: `str(sys_dict[sys_id][proc])`,
      or `-` when the lookup raises `KeyError`. */
  function Cell(entry: Value, proc: Key): (r: Result<string>)
    ensures entry.Dict? && !entry.nested ==> r == Ok(if proc in entry.entries then Show(entry.entries[proc]) else "-")
  {
    var v :- CatchKeyError(Index(entry, proc));
    Ok(if v.Some? then Show(v.value) else "-")
  }

  /** The entries of the processes from position `i` on, stopping at the first error. */
  function CellsFrom(entry: Value, procs: seq<Key>, i: nat): (r: Result<seq<string>>)
    requires i <= |procs|
    ensures r.Ok? ==> |r.value| == |procs| - i
    decreases |procs| - i
  {
    if i == |procs| then Ok([])
    else
      var c :- Cell(entry, procs[i]);
      var rest :- CellsFrom(entry, procs, i + 1);
      Ok([c] + rest)
  }

  /** The line of one systematic: its name, its type and, unless the type starts with
      `param`, one entry per process. */
  function SystematicLine(sysId: Key, entry: Value, procs: seq<Key>): (r: Result<string>)
  {
    var cells :- CellsFrom(entry, procs, 0);
    var ty :- Index(entry, "type");
    if !ty.Str? then Err(AttributeError("startswith"))
    else Ok(sysId + " " + ty.s + " " + Join(" ", if StartsWith(ty.s, "param") then [] else cells))
  }

  /** The lines of the systematics `ids[i..]`, stopping at the first error. */
  function SystematicLinesFrom(sysDict: Value, ids: seq<Key>, procs: seq<Key>, i: nat): (r: Result<seq<string>>)
    requires sysDict.Dict? && i <= |ids| && forall k :: 0 <= k < |ids| ==> ids[k] in sysDict.entries
    ensures r.Ok? ==> |r.value| == |ids| - i
    decreases |ids| - i
  {
    if i == |ids| then Ok([])
    else
      var line :- SystematicLine(ids[i], sysDict.entries[ids[i]], procs);
      var rest :- SystematicLinesFrom(sysDict, ids, procs, i + 1);
      Ok([line] + rest)
  }

  /** Every line followed by a newline. */
  function Terminated(lines: seq<string>): string {
    if lines == [] then "" else Terminated(lines[..|lines| - 1]) + lines[|lines| - 1] + "\n"
  }

  /** `_get_systematics_lines` on the systematics dict `sysDict` and the process list
      `procs`: the number of systematics and their lines, each ended by a newline; the
      systematics come in increasing name order. */
  function SystematicsLines(sysDict: Value, procs: seq<Key>): (r: Result<(nat, string)>)
    ensures r.Ok? ==> sysDict.Dict? && r.value.0 == |sysDict.entries|
  {
    if !sysDict.Dict? then Err(AttributeError("keys"))
    else
      var lines :- SystematicLinesFrom(sysDict, SortedOf(sysDict.entries.Keys), procs, 0);
      Ok((|lines|, Terminated(lines)))
  }

  /** The inner loops of `_get_systematics_lines` for one systematic: the entries of the
      signals, then of the backgrounds, dropped for a `param` type. */
  method SystematicLineFor(sysId: Key, entry: Value, signals: seq<Key>, backgrounds: seq<Key>) returns (r: Result<string>)
    ensures r == SystematicLine(sysId, entry, signals + backgrounds)
  {
    ghost var procs := signals + backgrounds;
    var values: seq<string> := [];
    PrependNothing(CellsFrom(entry, procs, 0));
    for j := 0 to |signals|
      invariant |values| == j
      invariant CellsFrom(entry, procs, 0) == PrependAll(values, CellsFrom(entry, procs, j))
    {
      var value := Cell(entry, signals[j]);
      assert signals[j] == procs[j];
      if value.Err? {
        return Err(value.error);
      }
      PrependStep(values, value.value, CellsFrom(entry, procs, j + 1));
      values := values + [value.value];
    }
    for j := 0 to |backgrounds|
      invariant |values| == |signals| + j
      invariant CellsFrom(entry, procs, 0) == PrependAll(values, CellsFrom(entry, procs, |signals| + j))
    {
      var value := Cell(entry, backgrounds[j]);
      assert backgrounds[j] == procs[|signals| + j];
      if value.Err? {
        return Err(value.error);
      }
      PrependStep(values, value.value, CellsFrom(entry, procs, |signals| + j + 1));
      values := values + [value.value];
    }
    PrependEnd(values);
    var ty := Index(entry, "type");
    if ty.Err? {
      return Err(ty.error);
    }
    if !ty.value.Str? {
      return Err(AttributeError("startswith"));
    }
    if StartsWith(ty.value.s, "param") {
      values := [];
    }
    return Ok(sysId + " " + ty.value.s + " " + Join(" ", values));
  }

  /** The loops of `_get_systematics_lines`: one line per systematic, then the lines
      concatenated and counted. */
  method BuildSystematicsLines(sysDict: Value, signals: seq<Key>, backgrounds: seq<Key>) returns (r: Result<(nat, string)>)
    ensures r == SystematicsLines(sysDict, signals + backgrounds)
  {
    if !sysDict.Dict? {
      return Err(AttributeError("keys"));
    }
    ghost var procs := signals + backgrounds;
    var ids := SortedOf(sysDict.entries.Keys);
    var systematicsLinesList: seq<string> := [];
    PrependNothing(SystematicLinesFrom(sysDict, ids, procs, 0));
    for k := 0 to |ids|
      invariant |systematicsLinesList| == k
      invariant SystematicLinesFrom(sysDict, ids, procs, 0) == PrependAll(systematicsLinesList, SystematicLinesFrom(sysDict, ids, procs, k))
    {
      var sysId := ids[k];
      var line := SystematicLineFor(sysId, sysDict.entries[sysId], signals, backgrounds);
      if line.Err? {
        return Err(line.error);
      }
      PrependStep(systematicsLinesList, line.value, SystematicLinesFrom(sysDict, ids, procs, k + 1));
      systematicsLinesList := systematicsLinesList + [line.value];
    }
    PrependEnd(systematicsLinesList);
    var counted := TerminateLines(systematicsLinesList);
    return Ok(counted);
  }

  /** The last loop of `_get_systematics_lines`: each line and a newline appended to the
      text, and the lines counted. */
  method TerminateLines(lines: seq<string>) returns (r: (nat, string))
    ensures r == (|lines|, Terminated(lines))
  {
    var systematicsLines := "";
    var nSystematics := 0;
    for k := 0 to |lines|
      invariant systematicsLines == Terminated(lines[..k])
      invariant nSystematics == k
    {
      assert lines[..k + 1][..k] == lines[..k];
      systematicsLines := systematicsLines + lines[k];
      systematicsLines := systematicsLines + "\n";
      nSystematics := nSystematics + 1;
    }
    assert lines[..|lines|] == lines;
    return (nSystematics, systematicsLines);
  }

  /** The lines ended by newlines are the lines joined by newlines, with one more empty
      piece at the end. */
  lemma {:induction false} TerminatedIsJoin(lines: seq<string>)
    ensures Terminated(lines) == Join("\n", lines + [""])
    decreases |lines|
  {
    if lines != [] {
      var init := lines[..|lines| - 1];
      var last := lines[|lines| - 1];
      assert lines == init + [last];
      if init == [] {
        calc {
          Terminated(lines);
          Terminated(init) + last + "\n";
          last + "\n";
          { JoinSnoc("\n", lines, ""); }
          Join("\n", lines + [""]);
        }
      } else {
        calc {
          Terminated(lines);
          Terminated(init) + last + "\n";
          { TerminatedIsJoin(init); }
          Join("\n", init + [""]) + last + "\n";
          { JoinSnoc("\n", init, ""); }
          Join("\n", init) + "\n" + last + "\n";
          { JoinSnoc("\n", init, last); }
          Join("\n", lines) + "\n";
          { JoinSnoc("\n", lines, ""); }
          Join("\n", lines + [""]);
        }
      }
    }
  }

  /** Splitting the systematics text on newlines gives back the `n_systematics` lines
      (and the empty rest after the last newline), when no line holds a newline. */
  lemma SystematicsTextSplits(sysDict: Value, procs: seq<Key>)
    requires SystematicsLines(sysDict, procs).Ok?
    ensures var lines := SystematicLinesFrom(sysDict, SortedOf(sysDict.entries.Keys), procs, 0).value;
            && SystematicsLines(sysDict, procs).value.0 == |lines|
            && ((forall i :: 0 <= i < |lines| ==> '\n' !in lines[i]) ==>
                Split(SystematicsLines(sysDict, procs).value.1, '\n') == lines + [""])
  {
    var lines := SystematicLinesFrom(sysDict, SortedOf(sysDict.entries.Keys), procs, 0).value;
    TerminatedIsJoin(lines);
    if forall i :: 0 <= i < |lines| ==> '\n' !in lines[i] {
      assert forall i :: 0 <= i < |lines + [""]| ==> '\n' !in (lines + [""])[i];
      SplitJoin(lines + [""], '\n');
    }
  }

  /** The entries a systematic's line lists, for an entry that is a plain dict: one per
      process, in process-list order, `str` of its value or `-` where it has none. */
  function ExpectedCells(entry: Value, procs: seq<Key>): (r: seq<string>)
    requires entry.Dict?
    ensures |r| == |procs|
  {
    seq(|procs|, i requires 0 <= i < |procs| =>
      if procs[i] in entry.entries then Show(entry.entries[procs[i]]) else "-")
  }

  /** The layout of a systematic's line when its entry is a plain dict with a string
      `type`: name, type and, unless the type starts with `param`, the expected entries. */
  lemma SystematicLineLayout(sysId: Key, entry: Value, procs: seq<Key>)
    requires entry.Dict? && !entry.nested && "type" in entry.entries && entry.entries["type"].Str?
    ensures var ty := entry.entries["type"].s;
            SystematicLine(sysId, entry, procs)
              == Ok(sysId + " " + ty + " " + Join(" ", if StartsWith(ty, "param") then [] else ExpectedCells(entry, procs)))
  {
    CellsFromPlain(entry, procs, 0);
    assert ExpectedCells(entry, procs)[0..] == ExpectedCells(entry, procs);
  }

  /** With a plain dict entry no table entry fails, and they are the expected ones. */
  lemma {:induction false} CellsFromPlain(entry: Value, procs: seq<Key>, i: nat)
    requires entry.Dict? && !entry.nested && i <= |procs|
    ensures CellsFrom(entry, procs, i) == Ok(ExpectedCells(entry, procs)[i..])
    decreases |procs| - i
  {
    var expected := ExpectedCells(entry, procs);
    if i < |procs| {
      CellsFromPlain(entry, procs, i + 1);
      assert Cell(entry, procs[i]) == Ok(expected[i]);
      assert expected[i..] == [expected[i]] + expected[i + 1..];
    } else {
      assert expected[i..] == [];
    }
  }
}
