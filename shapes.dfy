/** The `shapes` line of a datacard, which both builders compute the same way: the
    processes are scanned in process-list order for a truthy `shape` entry; the first
    one found names the workspace file, and the line either points `combine` at that
    file or says the card is a counting experiment. */
module Shapes {
  import opened Text
  import opened Values
  import opened Datacard

  const ShapeKey: Key := "shape"
  const CommentMark: string := "#"
  const CountingComment: string := CommentMark + "shapes are not used - counting experiment card"
  const ShapesWord: string := "shapes"
  const AllProcesses: string := "*"
  const WorkspacePattern: string := "w:$PROCESS"
  const Gap1: string := " "
  const Gap2: string := "  "
  const Gap4: string := "    "
  const InputSuffix: string := ".input.root"
  const InputWord: string := "input"
  const LumiLead: string := "lumi_scale_"
  const LumiTail: string := ".input"

  // ---------------------------------------------------------------------------
  // The scan over the processes
  // ---------------------------------------------------------------------------

  /** `d_input['processes'][p]['shape']`. */
  function ShapeLookup(dInput: Value, p: Key): (r: Result<Value>)
    ensures r.Ok? ==> dInput.Dict?
  {
    var procs :- Index(dInput, ProcessesKey);
    var setup :- Index(procs, p);
    Index(setup, ShapeKey)
  }

  /** That lookup inside `try: ... except KeyError: pass`: a `KeyError` anywhere in the
      chain, the missing `processes` section included, means "no shape". */
  function ShapeOf(dInput: Value, p: Key): (r: Result<Option<Value>>)
    ensures r.Err? ==> !r.error.KeyError?
  {
    CatchKeyError(ShapeLookup(dInput, p))
  }

  /** Process `p` has a shape the builders act on: one that is there and truthy. */
  predicate HasShape(dInput: Value, p: Key) {
    var s := ShapeOf(dInput, p);
    s.Ok? && s.value.Some? && Truthy(s.value.value)
  }

  /** Whether the loop of `_get_shapes_line` finds a shape among the processes from
      position `i` on (it stops at the first), or the error that ends it. */
  function ShapesScan(dInput: Value, procs: seq<Key>, i: nat): (r: Result<bool>)
    requires i <= |procs|
    ensures r == Ok(true) ==> exists j :: i <= j < |procs| && HasShape(dInput, procs[j])
    ensures r == Ok(false) ==> forall j :: i <= j < |procs| ==> !HasShape(dInput, procs[j])
    ensures r.Err? ==> exists j :: i <= j < |procs| && ShapeOf(dInput, procs[j]) == Err(r.error)
    ensures (forall j :: i <= j < |procs| ==> ShapeOf(dInput, procs[j]).Ok?) ==> r.Ok?
    decreases |procs| - i
  {
    if i == |procs| then Ok(false)
    else
      var s :- ShapeOf(dInput, procs[i]);
      if s.Some? && Truthy(s.value) then Ok(true)
      else ShapesScan(dInput, procs, i + 1)
  }

  /** With no lookup raising anything but `KeyError`, the scan finds a shape exactly
      when some process has one. */
  lemma ScanFindsShape(dInput: Value, procs: seq<Key>)
    requires forall j :: 0 <= j < |procs| ==> ShapeOf(dInput, procs[j]).Ok?
    ensures ShapesScan(dInput, procs, 0) == Ok(true) <==> exists j :: 0 <= j < |procs| && HasShape(dInput, procs[j])
  {
    var r := ShapesScan(dInput, procs, 0);
    assert r.Ok?;
    if exists j :: 0 <= j < |procs| && HasShape(dInput, procs[j]) {
      var j :| 0 <= j < |procs| && HasShape(dInput, procs[j]);
      assert r.value != false;
      assert r == Ok(true);
    } else {
      assert r != Ok(true);
    }
  }

  /** A process list without processes that have a shape gives a counting card. */
  lemma ScanWithoutShapes(dInput: Value, procs: seq<Key>)
    requires forall j :: 0 <= j < |procs| ==> ShapeOf(dInput, procs[j]) == Ok(None)
    ensures ShapesScan(dInput, procs, 0) == Ok(false)
  {
    assert forall j :: 0 <= j < |procs| ==> ShapeOf(dInput, procs[j]).Ok?;
    assert forall j :: 0 <= j < |procs| ==> !HasShape(dInput, procs[j]);
    var r := ShapesScan(dInput, procs, 0);
    assert r.Ok? && r.value != true;
    assert r == Ok(false);
  }

  // ---------------------------------------------------------------------------
  // The workspace file and the line
  // ---------------------------------------------------------------------------

  /** `"{0}.input.root".format(name)`, with every `input` in it replaced by
      `lumi_scale_<scale>.input` when the luminosity scale is not 1. `lumiText` is
      `'{0:3.2f}'.format(lumi_scaling)`, floating-point formatting outside the model. */
  function WorkspaceFile(name: string, lumi: real, lumiText: string): (f: string)
    ensures lumi == 1.0 ==> f == name + InputSuffix
  {
    var f := name + InputSuffix;
    if lumi != 1.0 then ReplaceAll(f, InputWord, LumiLead + lumiText + LumiTail) else f
  }

  /** `"shapes *    cat_{0}  {1} w:$PROCESS".format(...)` with the bin already formed. */
  function ShapesLineText(bin: string, file: string): string {
    ShapesWord + Gap1 + AllProcesses + Gap4 + bin + Gap2 + file + Gap1 + WorkspacePattern
  }

  /** A scaled card names its own workspace file: when the datacard name does not
      mention `input`, only the suffix changes. */
  lemma {:induction false} WorkspaceFileScaled(name: string, lumi: real, lumiText: string)
    requires lumi != 1.0 && !Contains(name, InputWord)
    ensures WorkspaceFile(name, lumi, lumiText) == name + "." + LumiLead + lumiText + LumiTail + ".root"
  {
    var rep := LumiLead + lumiText + LumiTail;
    assert WorkspaceFile(name, lumi, lumiText) == name + ReplaceAll(InputSuffix, InputWord, rep) by {
      ReplaceSkipsName(name, rep);
    }
    assert ReplaceAll(InputSuffix, InputWord, rep) == "." + rep + ".root" by {
      SuffixReplaced(rep);
    }
    RegroupFile(name, ".", LumiLead, lumiText, LumiTail, ".root");
  }

  lemma RegroupFile<T>(a: seq<T>, b: seq<T>, c: seq<T>, d: seq<T>, e: seq<T>, f: seq<T>)
    ensures a + (b + (c + d + e) + f) == a + b + c + d + e + f
  {
  }

  /** Replacing in `name + ".input.root"` leaves the name alone when it has no `input`:
      no occurrence can start inside it, as the suffix starts with a dot. */
  lemma {:induction false} ReplaceSkipsName(name: string, rep: string)
    requires !Contains(name, InputWord)
    ensures ReplaceAll(name + InputSuffix, InputWord, rep) == name + ReplaceAll(InputSuffix, InputWord, rep)
    decreases |name|
  {
    if name != [] {
      var s := name + InputSuffix;
      assert s[..|InputWord|] != InputWord by {
        if |name| >= |InputWord| {
          assert s[..|InputWord|] == name[..|InputWord|];
          assert !StartsWith(name, InputWord);
        } else {
          assert s[|name|] == '.';
          assert InputWord[|name|] != '.';
        }
      }
      assert s[1..] == name[1..] + InputSuffix;
      assert !Contains(name[1..], InputWord);
      ReplaceSkipsName(name[1..], rep);
      assert s[0] == name[0];
      assert [name[0]] + name[1..] == name;
    } else {
      assert name + InputSuffix == InputSuffix;
    }
  }

  lemma SuffixReplaced(rep: string)
    ensures ReplaceAll(InputSuffix, InputWord, rep) == "." + rep + ".root"
  {
    var s := InputSuffix;
    assert s[0] != InputWord[0];
    assert s[..5] != InputWord;
    assert s[1..] == "input.root";
    assert ReplaceAll("input.root", InputWord, rep) == rep + ReplaceAll(".root", InputWord, rep) by {
      assert "input.root"[..5] == InputWord;
      assert "input.root"[5..] == ".root";
    }
    assert ReplaceAll(".root", InputWord, rep) == ".root" by {
      assert ".root"[..5] != InputWord;
      assert ".root"[1..] == "root";
    }
  }

  /** The shapes line opens with `shapes`; the counting comment opens with `#`, so the
      two outcomes of the scan can be told apart by their first word. */
  lemma ShapesLineStarts(bin: string, file: string)
    ensures StartsWith(ShapesLineText(bin, file), ShapesWord)
    ensures !StartsWith(CountingComment, ShapesWord)
    ensures ShapesLineText(bin, file) != CountingComment
  {
    var line := ShapesLineText(bin, file);
    assert line == ShapesWord + (Gap1 + AllProcesses + Gap4 + bin + Gap2 + file + Gap1 + WorkspacePattern) by {
      Regroup8(ShapesWord, Gap1, AllProcesses, Gap4, bin, Gap2, file, Gap1 + WorkspacePattern);
      Regroup8(Gap1, AllProcesses, Gap4, bin, Gap2, file, Gap1, WorkspacePattern);
    }
    assert line[..|ShapesWord|] == ShapesWord;
    assert CountingComment[0] == CommentMark[0];
    assert ShapesWord[0] == 's';
    assert !StartsWith(CountingComment, ShapesWord) by {
      assert CountingComment[..|ShapesWord|][0] == '#';
    }
    assert line[0] == ShapesWord[0];
  }

  /** What `_get_shapes_line` returns once the workspace file is known: the
      counting-experiment comment when the scan finds no shape, and otherwise the shapes
      line for the bin `cat_<category>`. The category is only read when a shape is found. */
  function ShapesLine(dInput: Value, procs: seq<Key>, category: Result<string>, file: string): (r: Result<string>)
    ensures r.Ok? ==> (r.value == CountingComment <==> ShapesScan(dInput, procs, 0) == Ok(false))
    ensures r.Ok? ==> (StartsWith(r.value, ShapesWord) <==> ShapesScan(dInput, procs, 0) == Ok(true))
    ensures r.Err? <==> ShapesScan(dInput, procs, 0).Err? || (ShapesScan(dInput, procs, 0) == Ok(true) && category.Err?)
  {
    var found :- ShapesScan(dInput, procs, 0);
    if !found then
      ShapesLineStarts([], []);
      Ok(CountingComment)
    else
      var cat :- category;
      ShapesLineStarts(BinPrefix + cat, file);
      Ok(ShapesLineText(BinPrefix + cat, file))
  }

  /** The loop of `_get_shapes_line`: the processes are visited in order until one has a
      truthy shape; a `KeyError` on the way is passed over, any other error is raised. */
  method ScanShapes(dInput: Value, procs: seq<Key>) returns (r: Result<bool>)
    ensures r == ShapesScan(dInput, procs, 0)
  {
    var i := 0;
    while i < |procs|
      invariant 0 <= i <= |procs|
      invariant ShapesScan(dInput, procs, 0) == ShapesScan(dInput, procs, i)
      decreases |procs| - i
    {
      var shape := ShapeOf(dInput, procs[i]);
      if shape.Err? {
        return Err(shape.error);
      }
      if shape.value.Some? && Truthy(shape.value.value) {
        return Ok(true);
      }
      i := i + 1;
    }
    return Ok(false);
  }

  // ---------------------------------------------------------------------------
  // Reading the line back
  // ---------------------------------------------------------------------------

  predicate IsWord(w: string) {
    w != [] && forall i :: 0 <= i < |w| ==> !IsSpace(w[i])
  }

  /** A word followed by text that starts with a space is the first of the words. */
  lemma WordsCons(w: string, rest: string)
    requires IsWord(w) && (rest == [] || IsSpace(rest[0]))
    ensures Words(w + rest) == [w] + Words(rest)
  {
    var s := w + rest;
    RunLengthOfWordThen(w, rest);
    assert s[..|w|] == w && s[|w|..] == rest;
  }

  lemma {:induction false} RunLengthOfWordThen(w: string, rest: string)
    requires forall i :: 0 <= i < |w| ==> !IsSpace(w[i])
    requires rest == [] || IsSpace(rest[0])
    ensures RunLength(w + rest) == |w|
    decreases |w|
  {
    if w != [] {
      assert (w + rest)[0] == w[0];
      assert (w + rest)[1..] == w[1..] + rest;
      RunLengthOfWordThen(w[1..], rest);
    } else {
      assert w + rest == rest;
    }
  }

  /** Leading spaces are skipped. */
  lemma {:induction false} WordsSpaces(sp: string, rest: string)
    requires forall i :: 0 <= i < |sp| ==> IsSpace(sp[i])
    ensures Words(sp + rest) == Words(rest)
    decreases |sp|
  {
    if sp != [] {
      assert (sp + rest)[0] == sp[0];
      assert (sp + rest)[1..] == sp[1..] + rest;
      WordsSpaces(sp[1..], rest);
    } else {
      assert sp + rest == rest;
    }
  }

  predicate IsGap(sp: string) {
    sp != [] && forall i :: 0 <= i < |sp| ==> IsSpace(sp[i])
  }

  /** A word, some spaces, and more text whose words are `ws`. */
  lemma WordThenGap(w: string, sp: string, rest: string, ws: seq<string>)
    requires IsWord(w) && IsGap(sp) && Words(rest) == ws
    ensures Words(w + (sp + rest)) == [w] + ws
  {
    WordsCons(w, sp + rest);
    WordsSpaces(sp, rest);
  }

  lemma Regroup8<T>(a: seq<T>, b: seq<T>, c: seq<T>, d: seq<T>, e: seq<T>, f: seq<T>, g: seq<T>, h: seq<T>)
    ensures a + b + c + d + e + f + g + h == a + (b + (c + (d + (e + (f + (g + h))))))
  {
  }

  lemma Cons3<T>(a: T, b: T, c: T)
    ensures [a] + [b, c] == [a, b, c]
  {
  }

  lemma Cons4<T>(a: T, b: T, c: T, d: T)
    ensures [a] + [b, c, d] == [a, b, c, d]
  {
  }

  lemma Cons5<T>(a: T, b: T, c: T, d: T, e: T)
    ensures [a] + [b, c, d, e] == [a, b, c, d, e]
  {
  }

  /** The fixed fields of the shapes line are single words and its gaps are spaces. */
  lemma FixedFields()
    ensures IsWord(ShapesWord) && IsWord(AllProcesses) && IsWord(WorkspacePattern)
    ensures IsGap(Gap1) && IsGap(Gap2) && IsGap(Gap4)
  {
  }

  /** The shapes line splits into its five fields: `shapes`, `*`, the bin, the file and
      the workspace pattern, which is how `combine` reads it. */
  lemma ShapesLineFields(bin: string, file: string)
    requires IsWord(bin) && IsWord(file)
    ensures Words(ShapesLineText(bin, file)) == [ShapesWord, AllProcesses, bin, file, WorkspacePattern]
  {
    FixedFields();
    var t4 := Gap1 + WorkspacePattern;
    var t3 := file + t4;
    var t2 := bin + (Gap2 + t3);
    var t1 := AllProcesses + (Gap4 + t2);
    assert ShapesLineText(bin, file) == ShapesWord + (Gap1 + t1) by {
      Regroup8(ShapesWord, Gap1, AllProcesses, Gap4, bin, Gap2, file, t4);
    }
    assert Words(t4) == [WorkspacePattern] by {
      WordsSpaces(Gap1, WorkspacePattern);
      WordsOfWord(WorkspacePattern);
    }
    var ws3 := [file, WorkspacePattern];
    assert Words(t3) == ws3 by {
      WordsCons(file, t4);
    }
    var ws2 := [bin, file, WorkspacePattern];
    assert Words(t2) == ws2 by {
      WordThenGap(bin, Gap2, t3, ws3);
      Cons3(bin, file, WorkspacePattern);
    }
    var ws1 := [AllProcesses, bin, file, WorkspacePattern];
    assert Words(t1) == ws1 by {
      WordThenGap(AllProcesses, Gap4, t2, ws2);
      Cons4(AllProcesses, bin, file, WorkspacePattern);
    }
    WordThenGap(ShapesWord, Gap1, t1, ws1);
    Cons5(ShapesWord, AllProcesses, bin, file, WorkspacePattern);
  }

  /** Read back, the line of a card with shapes has the five fields `combine` expects,
      the bin being `cat_` followed by the category (or the datacard name). */
  lemma ShapesLineReadsBack(dInput: Value, procs: seq<Key>, category: string, file: string)
    requires ShapesScan(dInput, procs, 0) == Ok(true)
    requires IsWord(category) && IsWord(file)
    ensures var r := ShapesLine(dInput, procs, Ok(category), file);
            r.Ok? && Words(r.value) == [ShapesWord, AllProcesses, BinPrefix + category, file, WorkspacePattern]
  {
    assert IsWord(BinPrefix + category) by {
      assert forall i :: 0 <= i < |BinPrefix| ==> !IsSpace(BinPrefix[i]);
      assert forall i :: |BinPrefix| <= i < |BinPrefix + category| ==> (BinPrefix + category)[i] == category[i - |BinPrefix|];
    }
    ShapesLineFields(BinPrefix + category, file);
  }
}
