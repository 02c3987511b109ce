/** The rust-analyzer extractor: phase names, the processing-order counter,
    the line heuristics that classify and name code elements, the records of
    the parsing phase, and the plan that splits a phase's records over
    Parquet files. */
module RustAnalyzer {
  import opened Wrappers
  import opened Strings
  import opened Seqs
  import HfConverter

  // ---------------------------------------------------------------------------
  // Phases
  // ---------------------------------------------------------------------------

  /** The analysis phases, in their execution order. */
  datatype ProcessingPhase =
    | Parsing
    | NameResolution
    | TypeInference
    | HirGeneration
    | Diagnostics
    | Completions
    | Hover
    | GotoDefinition
    | FindReferences

  predicate IsSnakeChar(c: char) {
    'a' <= c <= 'z' || c == '_'
  }

  /** `ProcessingPhase::as_str`: the snake_case name used for directories
      and for the `phase` column. */
  function PhaseName(p: ProcessingPhase): (r: string)
    ensures |r| > 0
    ensures forall i :: 0 <= i < |r| ==> IsSnakeChar(r[i])
  {
    match p
    case Parsing => "parsing"
    case NameResolution => "name_resolution"
    case TypeInference => "type_inference"
    case HirGeneration => "hir_generation"
    case Diagnostics => "diagnostics"
    case Completions => "completions"
    case Hover => "hover"
    case GotoDefinition => "goto_definition"
    case FindReferences => "find_references"
  }

  /** The directory a phase's files are written to. */
  function PhaseDir(p: ProcessingPhase): string {
    PhaseName(p) + "-phase"
  }

  /** Different phases have different names. */
  lemma PhaseNameInjective(p: ProcessingPhase, q: ProcessingPhase)
    requires PhaseName(p) == PhaseName(q)
    ensures p == q
  {
  }

  /** Different phases write to different directories. */
  lemma PhaseDirInjective(p: ProcessingPhase, q: ProcessingPhase)
    requires PhaseDir(p) == PhaseDir(q)
    ensures p == q
  {
    assert PhaseDir(p) == "" + PhaseName(p) + "-phase";
    assert PhaseDir(q) == "" + PhaseName(q) + "-phase";
    SameFrameSameMiddle("", PhaseName(p), PhaseName(q), "-phase");
    PhaseNameInjective(p, q);
  }

  // ---------------------------------------------------------------------------
  // The extractor and its processing-order counter
  // ---------------------------------------------------------------------------

  const RustVersion: string := "1.86.0"
  const AnalyzerVersion: string := "0.3.2000"

  /** The extractor's state: tool versions and the last order handed out. */
  datatype Extractor = Extractor(rustVersion: string, analyzerVersion: string, processingOrder: nat)

  /** `RustAnalyzerExtractor::new`. */
  const Fresh: Extractor := Extractor(RustVersion, AnalyzerVersion, 0)

  /** `next_processing_order`: hands out a number above every earlier one
      and remembers it. */
  function NextProcessingOrder(x: Extractor): (r: (Extractor, nat))
    ensures r.1 > x.processingOrder
    ensures r.0 == x.(processingOrder := r.1)
  {
    var n := x.processingOrder + 1;
    (x.(processingOrder := n), n)
  }

  /** The numbers `k` successive calls hand out, and the state after them. */
  function Issue(x: Extractor, k: nat): (Extractor, seq<nat>)
    decreases k
  {
    if k == 0 then (x, [])
    else
      var (y, n) := NextProcessingOrder(x);
      var (z, ns) := Issue(y, k - 1);
      (z, [n] + ns)
  }

  /** Successive calls count up by one from the counter's value. */
  lemma {:induction false} IssueCountsUp(x: Extractor, k: nat)
    ensures |Issue(x, k).1| == k
    ensures forall i :: 0 <= i < k ==> Issue(x, k).1[i] == x.processingOrder + i + 1
    ensures Issue(x, k).0 == x.(processingOrder := x.processingOrder + k)
    decreases k
  {
    if k > 0 {
      var y := NextProcessingOrder(x).0;
      IssueCountsUp(y, k - 1);
    }
  }

  /** After `new`, the first order is 1 and later ones strictly increase. */
  lemma FreshOrdersStartAtOne(k: nat)
    ensures |Issue(Fresh, k).1| == k
    ensures k > 0 ==> Issue(Fresh, k).1[0] == 1
    ensures forall i, j :: 0 <= i < j < k ==> Issue(Fresh, k).1[i] < Issue(Fresh, k).1[j]
  {
    IssueCountsUp(Fresh, k);
  }

  // ---------------------------------------------------------------------------
  // Element type
  // ---------------------------------------------------------------------------

  /** The keyword each element type is recognised by, in priority order. */
  const ElementKeywords: seq<(string, string)> := [
    ("fn ", "function"),
    ("struct ", "struct"),
    ("enum ", "enum"),
    ("impl ", "impl"),
    ("let ", "variable"),
    ("use ", "import")
  ]

  const OtherElement: string := "other"

  /** `detect_element_type`. */
  function DetectElementType(line: string): (r: string)
    ensures r == "function" <==> Contains(line, "fn ")
    ensures r == OtherElement ==> !Contains(line, "fn ") && !Contains(line, "use ")
  {
    if Contains(line, "fn ") then "function"
    else if Contains(line, "struct ") then "struct"
    else if Contains(line, "enum ") then "enum"
    else if Contains(line, "impl ") then "impl"
    else if Contains(line, "let ") then "variable"
    else if Contains(line, "use ") then "import"
    else OtherElement
  }

  /** Reference: the type of the first table entry whose keyword occurs. */
  function FirstMatch(table: seq<(string, string)>, line: string): string {
    if |table| == 0 then OtherElement
    else if Contains(line, table[0].0) then table[0].1
    else FirstMatch(table[1..], line)
  }

  /** `FirstMatch` picks the type of the earliest keyword that occurs ... */
  lemma {:induction false} FirstMatchPicksFirst(table: seq<(string, string)>, line: string, k: nat)
    requires k < |table| && Contains(line, table[k].0)
    requires forall j :: 0 <= j < k ==> !Contains(line, table[j].0)
    ensures FirstMatch(table, line) == table[k].1
    decreases k
  {
    if k > 0 {
      var rest := table[1..];
      assert !Contains(line, table[0].0);
      assert rest[k - 1] == table[k];
      forall j | 0 <= j < k - 1 ensures !Contains(line, rest[j].0) {
        assert rest[j] == table[j + 1];
      }
      FirstMatchPicksFirst(rest, line, k - 1);
    }
  }

  /** ... and "other" when no keyword occurs. */
  lemma {:induction false} FirstMatchOther(table: seq<(string, string)>, line: string)
    requires forall k :: 0 <= k < |table| ==> !Contains(line, table[k].0)
    ensures FirstMatch(table, line) == OtherElement
    decreases |table|
  {
    if |table| > 0 {
      var rest := table[1..];
      assert !Contains(line, table[0].0);
      forall j | 0 <= j < |rest| ensures !Contains(line, rest[j].0) {
        assert rest[j] == table[j + 1];
      }
      FirstMatchOther(rest, line);
    }
  }

  /** The detected type is the first keyword of the priority table that the
      line contains. */
  lemma DetectIsFirstMatch(line: string)
    ensures DetectElementType(line) == FirstMatch(ElementKeywords, line)
  {
    var t := ElementKeywords;
    assert t[6..] == [];
    assert t[5..][0] == ("use ", "import") && t[5..][1..] == t[6..];
    assert t[4..][0] == ("let ", "variable") && t[4..][1..] == t[5..];
    assert t[3..][0] == ("impl ", "impl") && t[3..][1..] == t[4..];
    assert t[2..][0] == ("enum ", "enum") && t[2..][1..] == t[3..];
    assert t[1..][0] == ("struct ", "struct") && t[1..][1..] == t[2..];
    assert t[0] == ("fn ", "function") && t[1..] == t[1..];
    assert FirstMatch(t[6..], line) == OtherElement;
    assert FirstMatch(t[5..], line) == if Contains(line, "use ") then "import" else OtherElement;
    assert FirstMatch(t[4..], line) == if Contains(line, "let ") then "variable" else FirstMatch(t[5..], line);
    assert FirstMatch(t[3..], line) == if Contains(line, "impl ") then "impl" else FirstMatch(t[4..], line);
    assert FirstMatch(t[2..], line) == if Contains(line, "enum ") then "enum" else FirstMatch(t[3..], line);
    assert FirstMatch(t[1..], line) == if Contains(line, "struct ") then "struct" else FirstMatch(t[2..], line);
  }

  /** The extractor's tests: a function definition, ... */
  lemma DetectFunctionExample()
    ensures DetectElementType("fn main() {") == "function"
  {
    ContainsAt("fn main() {", "fn ", 0);
  }

  /** ... a struct definition, ... */
  lemma DetectStructExample()
    ensures DetectElementType("struct Point {") == "struct"
  {
    MissingCharNotContained("struct Point {", "fn ", 0);
    ContainsAt("struct Point {", "struct ", 0);
  }

  /** ... an enum definition, ... */
  lemma DetectEnumExample()
    ensures DetectElementType("enum Color {") == "enum"
  {
    MissingCharNotContained("enum Color {", "fn ", 0);
    MissingCharNotContained("enum Color {", "struct ", 0);
    ContainsAt("enum Color {", "enum ", 0);
  }

  /** ... and a binding: "let x = 5;" contains none of the keywords ranked
      above "let ". */
  lemma DetectBindingExample()
    ensures DetectElementType("let x = 5;") == "variable"
  {
    MissingCharNotContained("let x = 5;", "fn ", 0);
    MissingCharNotContained("let x = 5;", "struct ", 0);
    BindingLineLacksEnumAndImpl();
    ContainsAt("let x = 5;", "let ", 0);
  }

  lemma BindingLineLacksEnumAndImpl()
    ensures !Contains("let x = 5;", "enum ") && !Contains("let x = 5;", "impl ")
  {
    MissingCharNotContained("let x = 5;", "enum ", 2);
    MissingCharNotContained("let x = 5;", "impl ", 0);
  }

  // ---------------------------------------------------------------------------
  // Element and variable names
  // ---------------------------------------------------------------------------

  /** The text before the first `c` in `s`, trimmed, if `s` has a `c`. */
  function TrimmedBefore(s: string, c: char): (r: Option<string>)
    ensures r.Some? <==> c in s
    ensures r.Some? ==> Trim(r.value) == r.value && c !in r.value
    ensures r.Some? ==> forall x :: x in r.value ==> x in s
  {
    match IndexOf(s, [c])
    case None =>
      forall j | 0 <= j < |s| ensures s[j] != c {
        OccursAtSingle(s, c, j);
      }
      None
    case Some(q) =>
      OccursAtSingle(s, c, q);
      forall j | 0 <= j < q ensures s[j] != c {
        OccursAtSingle(s, c, j);
      }
      TrimIdempotent(s[..q]);
      TrimChars(s[..q]);
      Some(Trim(s[..q]))
  }

  /** Text framed by `c` is read back whole. */
  lemma TrimmedBeforeIs(prefix: string, c: char, rest: string)
    requires c !in prefix
    ensures TrimmedBefore(prefix + [c] + rest, c) == Some(Trim(prefix))
  {
    var s := prefix + [c] + rest;
    FirstCharAt(s, c, |prefix|);
    assert s[..|prefix|] == prefix;
  }

  /** A text that starts with `pat` has its first `pat` at 0. */
  lemma LeadingOccurrence(pat: string, body: string)
    ensures IndexOf(pat + body, pat) == Some(0)
  {
    assert (pat + body)[0..|pat|] == pat;
    IndexOfIs(pat + body, pat, 0);
  }

  /** A keyword placed after text that lacks its first character, such as
      indentation, first occurs right after that text. */
  lemma KeywordAfter(pre: string, kw: string, body: string)
    requires |kw| > 0 && kw[0] !in pre
    ensures IndexOf(pre + kw + body, kw) == Some(|pre|)
  {
    var line := pre + kw + body;
    assert line[|pre|..|pre| + |kw|] == kw;
    forall j | 0 <= j < |pre| ensures !OccursAt(line, kw, j) {
      assert line[j] == pre[j] != kw[0];
    }
    IndexOfIs(line, kw, |pre|);
  }

  /** The first occurrence of a character `s` starts with none of. */
  lemma FirstCharAt(s: string, c: char, n: nat)
    requires n < |s| && s[n] == c
    requires forall j :: 0 <= j < n ==> s[j] != c
    ensures IndexOf(s, [c]) == Some(n)
  {
    OccursAtSingle(s, c, n);
    forall j | 0 <= j < n ensures !OccursAt(s, [c], j) {
      OccursAtSingle(s, c, j);
    }
    IndexOfIs(s, [c], n);
  }

  /** The text after the first `kw`, if `kw` occurs. */
  function After(line: string, kw: string): (r: Option<string>)
    ensures r.Some? <==> Contains(line, kw)
    ensures r.Some? ==>
      && |kw| + |r.value| <= |line|
      && IndexOf(line, kw) == Some(|line| - |r.value| - |kw|)
      && line[|line| - |r.value|..] == r.value
  {
    match IndexOf(line, kw)
    case None => None
    case Some(p) => Some(line[p + |kw|..])
  }

  /** When `kw` first occurs right after `pre`, the text after it is the rest. */
  lemma AfterAt(pre: string, kw: string, body: string)
    requires IndexOf(pre + kw + body, kw) == Some(|pre|)
    ensures After(pre + kw + body, kw) == Some(body)
  {
    assert (pre + kw + body)[|pre| + |kw|..] == body;
  }

  /** The name between the first "fn " and the next '(', if both are there. */
  function FnName(line: string): (r: Option<string>)
    ensures r.Some? <==> After(line, "fn ").Some? && '(' in After(line, "fn ").value
    ensures r.Some? ==> Contains(line, "fn ") && Trim(r.value) == r.value && '(' !in r.value
  {
    match After(line, "fn ")
    case None => None
    case Some(after) => TrimmedBefore(after, '(')
  }

  /** The name between the first "struct " and the next space, if both are there. */
  function StructName(line: string): (r: Option<string>)
    ensures r.Some? <==> After(line, "struct ").Some? && ' ' in After(line, "struct ").value
    ensures r.Some? ==> Contains(line, "struct ") && Trim(r.value) == r.value && ' ' !in r.value
  {
    match After(line, "struct ")
    case None => None
    case Some(after) => TrimmedBefore(after, ' ')
  }

  /** `extract_element_name`: a function's name, else a struct's name. */
  function ExtractElementName(line: string): (r: Option<string>)
    ensures FnName(line).Some? ==> r == FnName(line)
    ensures FnName(line).None? ==> r == StructName(line)
    ensures r.Some? ==> Trim(r.value) == r.value
    ensures r.None? <==> FnName(line).None? && StructName(line).None?
    ensures !Contains(line, "fn ") && !Contains(line, "struct ") ==> r.None?
  {
    if FnName(line).Some? then FnName(line) else StructName(line)
  }

  /** `... fn NAME(...` names the function NAME, trimmed, wherever the first
      "fn " stands. */
  lemma FnNameRoundTrip(pre: string, name: string, rest: string)
    requires '(' !in name
    requires IndexOf(pre + "fn " + name + "(" + rest, "fn ") == Some(|pre|)
    ensures ExtractElementName(pre + "fn " + name + "(" + rest) == Some(Trim(name))
  {
    var after := name + ['('] + rest;
    var line := pre + "fn " + after;
    assert pre + "fn " + name + "(" + rest == line;
    AfterAt(pre, "fn ", after);
    TrimmedBeforeIs(name, '(', rest);
    assert FnName(line) == Some(Trim(name));
  }

  /** `... struct NAME ...` names the struct NAME when the line has no
      function name. */
  lemma StructNameRoundTrip(pre: string, name: string, rest: string)
    requires ' ' !in name
    requires IndexOf(pre + "struct " + name + " " + rest, "struct ") == Some(|pre|)
    requires FnName(pre + "struct " + name + " " + rest).None?
    ensures ExtractElementName(pre + "struct " + name + " " + rest) == Some(Trim(name))
  {
    var after := name + [' '] + rest;
    var line := pre + "struct " + after;
    assert pre + "struct " + name + " " + rest == line;
    AfterAt(pre, "struct ", after);
    TrimmedBeforeIs(name, ' ', rest);
    assert StructName(line) == Some(Trim(name));
  }

  /** An indented method header, as most lines of an `impl` block are. */
  lemma IndentedFnExample(name: string, rest: string)
    requires '(' !in name
    ensures ExtractElementName("    pub fn " + name + "(" + rest) == Some(Trim(name))
  {
    assert "    pub fn " + name + "(" + rest == "    pub " + "fn " + name + "(" + rest;
    KeywordAfter("    pub ", "fn ", name + "(" + rest);
    assert "    pub " + "fn " + (name + "(" + rest) == "    pub " + "fn " + name + "(" + rest;
    FnNameRoundTrip("    pub ", name, rest);
  }

  /** `extract_variable_name` as written: cut at the first '=' if there is
      one, and only otherwise at the first ':'. */
  function ExtractVariableName(line: string): (r: Option<string>)
    ensures r.Some? <==>
      && After(line, "let ").Some?
      && ('=' in After(line, "let ").value || ':' in After(line, "let ").value)
    ensures r.Some? ==> Contains(line, "let ") && Trim(r.value) == r.value
    ensures r.Some? ==> '=' !in r.value
  {
    match After(line, "let ")
    case None => None
    case Some(after) =>
      match TrimmedBefore(after, '=')
      case Some(name) => Some(name)
      case None => TrimmedBefore(after, ':')
  }

  /** The earlier of two optional positions. */
  function Earlier(a: Option<nat>, b: Option<nat>): (r: Option<nat>)
    ensures r.None? <==> a.None? && b.None?
    ensures r.Some? ==> r == a || r == b
    ensures a.Some? && r.Some? ==> r.value <= a.value
    ensures b.Some? && r.Some? ==> r.value <= b.value
  {
    match (a, b)
    case (None, _) => b
    case (_, None) => a
    case (Some(x), Some(y)) => if x <= y then a else b
  }

  predicate IsBindingEnd(c: char) {
    c == ':' || c == '='
  }

  /** Where the documented binding name ends: at whichever of '=' and ':'
      comes first. */
  function BindingCut(after: string): (r: Option<nat>)
    ensures r.Some? ==> r.value < |after| && IsBindingEnd(after[r.value])
    ensures r.Some? ==> forall j :: 0 <= j < r.value ==> !IsBindingEnd(after[j])
    ensures r.None? ==> forall j :: 0 <= j < |after| ==> !IsBindingEnd(after[j])
  {
    var eq := IndexOf(after, "=");
    var colon := IndexOf(after, ":");
    var r := Earlier(eq, colon);
    var at := r.UnwrapOr(0);
    OccursAtSingle(after, '=', at);
    OccursAtSingle(after, ':', at);
    forall j | 0 <= j < |after| && (r.None? || j < r.value) ensures !IsBindingEnd(after[j]) {
      OccursAtSingle(after, '=', j);
      OccursAtSingle(after, ':', j);
    }
    r
  }

  /** The cut is at the first separator. */
  lemma BindingCutIs(after: string, n: nat)
    requires n < |after| && IsBindingEnd(after[n])
    requires forall j :: 0 <= j < n ==> !IsBindingEnd(after[j])
    ensures BindingCut(after) == Some(n)
  {
  }

  /** Text without a separator contains neither '=' nor ':'. */
  lemma NoBindingEndIn(s: string)
    requires forall j :: 0 <= j < |s| ==> !IsBindingEnd(s[j])
    ensures '=' !in s && ':' !in s
  {
    forall c | c in s ensures !IsBindingEnd(c) {
      var j :| 0 <= j < |s| && s[j] == c;
    }
  }

  /** The binding name the documentation describes: the text after "let "
      up to whichever of ':' and '=' comes first, trimmed. */
  function ExtractBindingName(line: string): (r: Option<string>)
    ensures r.Some? ==> Contains(line, "let ") && Trim(r.value) == r.value
    ensures r.Some? ==> '=' !in r.value && ':' !in r.value
    ensures r.None? <==> After(line, "let ").None? || ('=' !in After(line, "let ").value && ':' !in After(line, "let ").value)
  {
    match After(line, "let ")
    case None => None
    case Some(after) =>
      match BindingCut(after)
      case None =>
        NoBindingEndIn(after);
        None
      case Some(cut) =>
        var name := after[..cut];
        assert forall j :: 0 <= j < |name| ==> name[j] == after[j];
        NoBindingEndIn(name);
        TrimIdempotent(name);
        TrimChars(name);
        assert after[cut] in after;
        Some(Trim(name))
  }

  /** Without a type annotation the code as written and the documented
      behaviour agree. */
  lemma UnannotatedBindingsAgree(line: string)
    requires ':' !in line
    ensures ExtractVariableName(line) == ExtractBindingName(line)
  {
    match After(line, "let ")
    case None =>
    case Some(after) =>
      MissingCharNotContained(after, ":", 0);
  }

  /** `let NAME = ...` names NAME under the code as written, whatever NAME
      holds besides '=', wherever the first "let " stands. */
  lemma VariableNameRoundTrip(pre: string, name: string, rest: string)
    requires '=' !in name
    requires IndexOf(pre + "let " + name + "=" + rest, "let ") == Some(|pre|)
    ensures ExtractVariableName(pre + "let " + name + "=" + rest) == Some(Trim(name))
  {
    var after := name + "=" + rest;
    assert pre + "let " + name + "=" + rest == pre + "let " + after;
    AfterAt(pre, "let ", after);
    TrimmedBeforeIs(name, '=', rest);
  }

  /** With no '=' anywhere after it, `let NAME: ...` names NAME under the code
      as written. */
  lemma VariableNameColonRoundTrip(pre: string, name: string, rest: string)
    requires ':' !in name && '=' !in name && '=' !in rest
    requires IndexOf(pre + "let " + name + ":" + rest, "let ") == Some(|pre|)
    ensures ExtractVariableName(pre + "let " + name + ":" + rest) == Some(Trim(name))
  {
    var after := name + ":" + rest;
    assert pre + "let " + name + ":" + rest == pre + "let " + after;
    AfterAt(pre, "let ", after);
    assert '=' !in after;
    TrimmedBeforeIs(name, ':', rest);
  }

  /** `let NAME = ...` and `let NAME: ...` both name NAME under the
      documented behaviour, wherever the first "let " stands. */
  lemma BindingNameRoundTrip(pre: string, name: string, sep: char, rest: string)
    requires IsBindingEnd(sep)
    requires '=' !in name && ':' !in name
    requires IndexOf(pre + "let " + name + [sep] + rest, "let ") == Some(|pre|)
    ensures ExtractBindingName(pre + "let " + name + [sep] + rest) == Some(Trim(name))
  {
    var after := name + [sep] + rest;
    assert pre + "let " + name + [sep] + rest == pre + "let " + after;
    AfterAt(pre, "let ", after);
    forall j | 0 <= j < |name| ensures !IsBindingEnd(after[j]) {
      assert after[j] == name[j];
    }
    BindingCutIs(after, |name|);
    assert after[..|name|] == name;
  }

  /** For `let NAME: TYPE = VALUE` the code as written returns the name
      together with its type annotation ... */
  lemma AnnotationKeptAsWritten(pre: string, name: string, ty: string, value: string)
    requires '=' !in name && ':' !in name && '=' !in ty
    requires IndexOf(pre + "let " + name + ":" + ty + "=" + value, "let ") == Some(|pre|)
    ensures ExtractVariableName(pre + "let " + name + ":" + ty + "=" + value) == Some(Trim(name + ":" + ty))
    ensures ':' in Trim(name + ":" + ty)
  {
    var annotated := name + ":" + ty;
    assert pre + "let " + name + ":" + ty + "=" + value == pre + "let " + annotated + "=" + value;
    assert '=' !in annotated;
    VariableNameRoundTrip(pre, annotated, value);
    TrimKeeps(annotated, |name|);
  }

  /** ... while the documented behaviour returns the name alone ... */
  lemma AnnotationDroppedAsDocumented(pre: string, name: string, ty: string, value: string)
    requires '=' !in name && ':' !in name
    requires IndexOf(pre + "let " + name + ":" + ty + "=" + value, "let ") == Some(|pre|)
    ensures ExtractBindingName(pre + "let " + name + ":" + ty + "=" + value) == Some(Trim(name))
  {
    assert pre + "let " + name + ":" + ty + "=" + value == pre + "let " + name + [':'] + (ty + "=" + value);
    BindingNameRoundTrip(pre, name, ':', ty + "=" + value);
  }

  /** ... so the two disagree on every annotated binding, such as the
      documented `let mut count: i32 = 0;`. */
  lemma AnnotatedBindingsDisagree(pre: string, name: string, ty: string, value: string)
    requires '=' !in name && ':' !in name && '=' !in ty
    requires IndexOf(pre + "let " + name + ":" + ty + "=" + value, "let ") == Some(|pre|)
    ensures ExtractVariableName(pre + "let " + name + ":" + ty + "=" + value)
         != ExtractBindingName(pre + "let " + name + ":" + ty + "=" + value)
  {
    AnnotationKeptAsWritten(pre, name, ty, value);
    AnnotationDroppedAsDocumented(pre, name, ty, value);
    TrimChars(name);
  }

  /** The documented example `let x = 5;` names "x" ... */
  lemma VariableNameSimpleExample()
    ensures ExtractVariableName("let x = 5;") == Some("x")
  {
    var line := "" + "let " + "x " + "=" + " 5;";
    assert line == "let " + ("x " + "=" + " 5;") == "let x = 5;";
    LeadingOccurrence("let ", "x " + "=" + " 5;");
    VariableNameRoundTrip("", "x ", " 5;");
    TrimTrailingSpace("x");
    assert "x " == "x" + " ";
  }

  /** ... and so does the same binding indented inside a function body. */
  lemma VariableNameIndentedExample()
    ensures ExtractVariableName("    let x = 5;") == Some("x")
  {
    var line := "    " + "let " + "x " + "=" + " 5;";
    assert line == "    " + "let " + ("x " + "=" + " 5;") == "    let x = 5;";
    KeywordAfter("    ", "let ", "x " + "=" + " 5;");
    VariableNameRoundTrip("    ", "x ", " 5;");
    TrimTrailingSpace("x");
    assert "x " == "x" + " ";
  }

  // ---------------------------------------------------------------------------
  // Parsing-phase records
  // ---------------------------------------------------------------------------

  /** One row of a phase dataset, without the mock payload, timing and
      timestamp columns. */
  datatype Record = Record(
    id: string,
    filePath: string,
    line: nat,
    column: nat,
    phase: string,
    processingOrder: nat,
    elementType: string,
    elementName: Option<string>,
    rustVersion: string,
    analyzerVersion: string,
    sourceSnippet: string,
    contextBefore: Option<string>,
    contextAfter: Option<string>)

  /** `{path}:{line}:{phase}`. */
  function RecordId(path: string, line: nat, phase: ProcessingPhase): string {
    var suffix := ":" + PhaseName(phase);
    path + ":" + Decimal(line) + suffix
  }

  /** Records of one file and phase have distinct ids for distinct lines. */
  lemma RecordIdInjective(path: string, m: nat, n: nat, phase: ProcessingPhase)
    requires RecordId(path, m, phase) == RecordId(path, n, phase)
    ensures m == n
  {
    SameFrameSameMiddle(path + ":", Decimal(m), Decimal(n), ":" + PhaseName(phase));
    DecimalInjective(m, n);
  }

  /** Indexes of the lines that are not blank, in order. */
  function NonBlankLines(lines: seq<string>): (r: seq<nat>)
    ensures |r| <= |lines|
  {
    if |lines| == 0 then []
    else
      var front := NonBlankLines(lines[..|lines| - 1]);
      if IsBlank(lines[|lines| - 1]) then front else front + [|lines| - 1]
  }

  /** The kept indexes are exactly the non-blank lines, in increasing order. */
  lemma {:induction false} NonBlankLinesMeaning(lines: seq<string>)
    ensures var r := NonBlankLines(lines);
      && (forall k :: 0 <= k < |r| ==> r[k] < |lines| && !IsBlank(lines[r[k]]))
      && (forall k, m :: 0 <= k < m < |r| ==> r[k] < r[m])
      && (forall i :: 0 <= i < |lines| && !IsBlank(lines[i]) ==> i in r)
  {
    if |lines| > 0 {
      var n := |lines| - 1;
      var init := lines[..n];
      NonBlankLinesMeaning(init);
      assert forall i :: 0 <= i < n ==> init[i] == lines[i];
    }
  }

  /** Scanning one more line adds its index when it is not blank. */
  lemma NonBlankLinesStep(lines: seq<string>, i: nat)
    requires i < |lines|
    ensures NonBlankLines(lines[..i + 1]) ==
      if IsBlank(lines[i]) then NonBlankLines(lines[..i]) else NonBlankLines(lines[..i]) + [i]
  {
    assert lines[..i + 1][..i] == lines[..i];
  }

  /** What the parsing record for line index `i` holds. */
  predicate Describes(r: Record, x: Extractor, path: string, lines: seq<string>, i: nat, order: nat) {
    && i < |lines|
    && r.id == RecordId(path, i + 1, Parsing)
    && r.filePath == path
    && r.line == i + 1
    && r.column == 1
    && r.phase == PhaseName(Parsing)
    && r.processingOrder == order
    && r.elementType == DetectElementType(lines[i])
    && r.elementName == ExtractElementName(lines[i])
    && r.rustVersion == x.rustVersion
    && r.analyzerVersion == x.analyzerVersion
    && r.sourceSnippet == lines[i]
    && (r.contextBefore.None? <==> i == 0)
    && (i > 0 ==> r.contextBefore == Some(lines[i - 1]))
    && (r.contextAfter.None? <==> i + 1 == |lines|)
    && (i + 1 < |lines| ==> r.contextAfter == Some(lines[i + 1]))
  }

  /** The record `extract_parsing_data` builds for line index `i`. */
  function LineRecord(x: Extractor, path: string, lines: seq<string>, i: nat, order: nat): (r: Record)
    requires i < |lines|
    ensures Describes(r, x, path, lines, i, order)
  {
    var line := lines[i];
    Record(
      id := RecordId(path, i + 1, Parsing),
      filePath := path,
      line := i + 1,
      column := 1,
      phase := PhaseName(Parsing),
      processingOrder := order,
      elementType := DetectElementType(line),
      elementName := ExtractElementName(line),
      rustVersion := x.rustVersion,
      analyzerVersion := x.analyzerVersion,
      sourceSnippet := line,
      contextBefore := if i > 0 then Some(lines[i - 1]) else None,
      contextAfter := if i + 1 < |lines| then Some(lines[i + 1]) else None)
  }

  /** Only the tool versions of the extractor enter a record. */
  lemma SameVersionsSameRecord(x: Extractor, x': Extractor, path: string, lines: seq<string>, i: nat, order: nat)
    requires i < |lines|
    requires x.rustVersion == x'.rustVersion && x.analyzerVersion == x'.analyzerVersion
    ensures LineRecord(x, path, lines, i, order) == LineRecord(x', path, lines, i, order)
  {
  }

  /** `records` holds, in order, the records of the lines `kept`, numbered
      on from `x`'s processing order. */
  predicate RecordsOf(x: Extractor, path: string, lines: seq<string>, kept: seq<nat>, records: seq<Record>) {
    && |records| == |kept|
    && forall k :: 0 <= k < |records| ==>
         kept[k] < |lines| && records[k] == LineRecord(x, path, lines, kept[k], x.processingOrder + k + 1)
  }

  /** Appending the record of one more line keeps `RecordsOf`. */
  lemma RecordsOfExtend(x: Extractor, path: string, lines: seq<string>, kept: seq<nat>, records: seq<Record>, i: nat)
    requires RecordsOf(x, path, lines, kept, records)
    requires i < |lines|
    ensures RecordsOf(x, path, lines, kept + [i],
      records + [LineRecord(x, path, lines, i, x.processingOrder + |records| + 1)])
  {
    var kept' := kept + [i];
    var records' := records + [LineRecord(x, path, lines, i, x.processingOrder + |records| + 1)];
    forall k | 0 <= k < |records'|
      ensures kept'[k] < |lines| && records'[k] == LineRecord(x, path, lines, kept'[k], x.processingOrder + k + 1)
    {
      if k < |records| {
        assert records'[k] == records[k] && kept'[k] == kept[k];
      }
    }
  }

  /** Every record in `RecordsOf` describes its line. */
  lemma RecordsOfDescribe(x: Extractor, path: string, lines: seq<string>, kept: seq<nat>, records: seq<Record>)
    requires RecordsOf(x, path, lines, kept, records)
    ensures forall k :: 0 <= k < |records| ==>
      Describes(records[k], x, path, lines, kept[k], x.processingOrder + k + 1)
  {
    forall k | 0 <= k < |records|
      ensures Describes(records[k], x, path, lines, kept[k], x.processingOrder + k + 1)
    {
      assert records[k] == LineRecord(x, path, lines, kept[k], x.processingOrder + k + 1);
    }
  }

  /** `extract_parsing_data` over a file's lines: one record per non-blank
      line, numbered from 1, each taking the next processing order. */
  method ExtractParsingData(x: Extractor, path: string, lines: seq<string>) returns (y: Extractor, records: seq<Record>)
    ensures |records| == |NonBlankLines(lines)|
    ensures y == x.(processingOrder := x.processingOrder + |records|)
    ensures forall k :: 0 <= k < |records| ==>
      Describes(records[k], x, path, lines, NonBlankLines(lines)[k], x.processingOrder + k + 1)
  {
    y := x;
    records := [];
    ghost var kept: seq<nat> := [];
    for i := 0 to |lines|
      invariant kept == NonBlankLines(lines[..i])
      invariant y == x.(processingOrder := x.processingOrder + |records|)
      invariant RecordsOf(x, path, lines, kept, records)
    {
      NonBlankLinesStep(lines, i);
      TrimEmptyIffBlank(lines[i]);
      if Trim(lines[i]) == [] {
        continue;
      }
      var next := NextProcessingOrder(y);
      var r := LineRecord(y, path, lines, i, next.1);
      SameVersionsSameRecord(y, x, path, lines, i, next.1);
      assert r == LineRecord(x, path, lines, i, x.processingOrder + |records| + 1);
      RecordsOfExtend(x, path, lines, kept, records, i);
      records := records + [r];
      kept := kept + [i];
      y := next.0;
    }
    assert lines[..|lines|] == lines;
    RecordsOfDescribe(x, path, lines, kept, records);
  }

  /** `records` is what `ExtractParsingData` promises for `lines`. */
  predicate ParsingOutput(x: Extractor, path: string, lines: seq<string>, records: seq<Record>) {
    && |records| == |NonBlankLines(lines)|
    && forall k :: 0 <= k < |records| ==>
         Describes(records[k], x, path, lines, NonBlankLines(lines)[k], x.processingOrder + k + 1)
  }

  /** The position fields of the `k`-th record of a parsing output. */
  lemma ParsingOutputAt(x: Extractor, path: string, lines: seq<string>, records: seq<Record>, k: nat)
    requires ParsingOutput(x, path, lines, records)
    requires k < |records|
    ensures var i := NonBlankLines(lines)[k];
      && i < |lines| && !IsBlank(lines[i])
      && records[k].line == i + 1
      && records[k].processingOrder == x.processingOrder + k + 1
      && records[k].id == RecordId(path, records[k].line, Parsing)
      && records[k].sourceSnippet == lines[i]
  {
    NonBlankLinesMeaning(lines);
    assert Describes(records[k], x, path, lines, NonBlankLines(lines)[k], x.processingOrder + k + 1);
  }

  /** Only lines with something besides whitespace get a record. */
  lemma ParsedLinesAreNonBlank(x: Extractor, path: string, lines: seq<string>, records: seq<Record>)
    requires ParsingOutput(x, path, lines, records)
    ensures forall k :: 0 <= k < |records| ==> Trim(records[k].sourceSnippet) != []
  {
    forall k | 0 <= k < |records| ensures Trim(records[k].sourceSnippet) != [] {
      ParsingOutputAt(x, path, lines, records, k);
      TrimEmptyIffBlank(records[k].sourceSnippet);
    }
  }

  /** Every line with something besides whitespace gets a record. */
  lemma NonBlankLinesAreParsed(x: Extractor, path: string, lines: seq<string>, records: seq<Record>)
    requires ParsingOutput(x, path, lines, records)
    ensures forall i :: 0 <= i < |lines| && Trim(lines[i]) != [] ==>
      exists k :: 0 <= k < |records| && records[k].line == i + 1
  {
    var kept := NonBlankLines(lines);
    forall i | 0 <= i < |lines| && Trim(lines[i]) != []
      ensures exists k :: 0 <= k < |records| && records[k].line == i + 1
    {
      TrimEmptyIffBlank(lines[i]);
      NonBlankLinesMeaning(lines);
      var k :| 0 <= k < |kept| && kept[k] == i;
      ParsingOutputAt(x, path, lines, records, k);
    }
  }

  /** Different lines of one file and phase get different ids. */
  lemma RecordIdDistinct(path: string, m: nat, n: nat, phase: ProcessingPhase)
    requires m != n
    ensures RecordId(path, m, phase) != RecordId(path, n, phase)
  {
    if RecordId(path, m, phase) == RecordId(path, n, phase) {
      RecordIdInjective(path, m, n, phase);
    }
  }

  /** Records come in line order, with increasing processing orders and
      distinct ids. */
  lemma ParsedRecordsOrdered(x: Extractor, path: string, lines: seq<string>, records: seq<Record>, k: nat, m: nat)
    requires ParsingOutput(x, path, lines, records)
    requires k < m < |records|
    ensures records[k].line < records[m].line
    ensures records[k].processingOrder < records[m].processingOrder
    ensures records[k].id != records[m].id
  {
    var kept := NonBlankLines(lines);
    ParsingOutputAt(x, path, lines, records, k);
    ParsingOutputAt(x, path, lines, records, m);
    NonBlankLinesMeaning(lines);
    assert kept[k] < kept[m];
    var a, b := records[k].line, records[m].line;
    RecordIdDistinct(path, a, b, Parsing);
  }

  /** When no line is blank, every line gets a record. */
  lemma {:induction false} NonBlankLinesAll(lines: seq<string>)
    requires forall i :: 0 <= i < |lines| ==> !IsBlank(lines[i])
    ensures NonBlankLines(lines) == seq(|lines|, i => i)
  {
    if |lines| > 0 {
      var init := lines[..|lines| - 1];
      assert forall i :: 0 <= i < |init| ==> init[i] == lines[i];
      NonBlankLinesAll(init);
      assert seq(|lines|, i => i) == seq(|init|, i => i) + [|lines| - 1];
    }
  }

  /** The extractor's own test file: three non-blank lines, the first a
      function, all in the "parsing" phase. */
  lemma ParsingTestFile()
    ensures var lines := ["fn main() {", "    println!(\"Hello, world!\");", "}"];
      && NonBlankLines(lines) == [0, 1, 2]
      && DetectElementType(lines[0]) == "function"
      && PhaseName(Parsing) == "parsing"
  {
    var lines := ["fn main() {", "    println!(\"Hello, world!\");", "}"];
    assert !IsWhitespace(lines[0][0]);
    assert !IsWhitespace(lines[1][4]);
    assert !IsWhitespace(lines[2][0]);
    NonBlankLinesAll(lines);
    assert seq(3, i => i) == [0, 1, 2];
    DetectFunctionExample();
  }

  // ---------------------------------------------------------------------------
  // Splitting a phase's records over files
  // ---------------------------------------------------------------------------

  const SingleFileName: string := "data.parquet"

  /** The files `write_phase_to_parquet` writes for `records` when at most
      `max` fit in one file. `None` is the division by zero the source
      panics with when `max` is 0 and there are records. */
  function PlanPhaseFiles<T>(records: seq<T>, max: nat): (r: Option<seq<(string, seq<T>)>>)
    ensures r.None? <==> |records| > 0 && max == 0
    ensures |records| == 0 ==> r == Some([])
    ensures 0 < |records| <= max ==> r == Some([(SingleFileName, records)])
    ensures r.Some? && |records| > max ==>
      var files := r.value;
      && |files| == CeilDiv(|records|, max)
      && |files| >= 2
      && Flatten(seq(|files|, i requires 0 <= i < |files| => files[i].1)) == records
      && (forall i :: 0 <= i < |files| ==> 0 < |files[i].1| <= max)
      && (forall i :: 0 <= i < |files| ==> files[i].0 == HfConverter.IndexedName("data", i, |files|))
  {
    if |records| == 0 then Some([])
    else if |records| <= max then Some([(SingleFileName, records)])
    else if max == 0 then None
    else
      var chunks := Chunks(records, max);
      assert |chunks| >= 2;
      var files := seq(|chunks|, i requires 0 <= i < |chunks| => (HfConverter.IndexedName("data", i, |chunks|), chunks[i]));
      assert seq(|files|, i requires 0 <= i < |files| => files[i].1) == chunks;
      Some(files)
  }

  /** The files planned for one phase have pairwise distinct names. */
  lemma PhaseFileNamesDistinct<T>(records: seq<T>, max: nat, i: nat, j: nat)
    requires PlanPhaseFiles(records, max).Some?
    requires var files := PlanPhaseFiles(records, max).value; i < |files| && j < |files| && i != j
    ensures PlanPhaseFiles(records, max).value[i].0 != PlanPhaseFiles(records, max).value[j].0
  {
    var files := PlanPhaseFiles(records, max).value;
    if files[i].0 == files[j].0 {
      HfConverter.IndexedNameInjective("data", i, j, |files|);
    }
  }
}
