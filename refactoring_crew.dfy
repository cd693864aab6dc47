/**
  `CodeAnalysisTool._run` of the refactoring crew
  (`src/agents/refactoring_crew.py`): a line-based census of the functions
  and classes in a piece of code, handed to the agents as JSON.
*/
module RefactoringCrew {
  import opened Strings

  /** The dictionary `_run` serialises. */
  datatype CodeAnalysis = CodeAnalysis(
    totalLines: nat,
    functionsCount: nat,
    classesCount: nat,
    functions: seq<string>,
    classes: seq<string>)

  /** `[l.strip() for l in lines]` */
  function StripAll(lines: seq<string>): (r: seq<string>)
    ensures |r| == |lines| && forall i :: 0 <= i < |lines| ==> r[i] == Strip(lines[i])
  {
    if lines == [] then []
    else StripAll(lines[..|lines| - 1]) + [Strip(lines[|lines| - 1])]
  }

  /** `_run(code)`: the lines are the pieces of `code.split('\n')`; a line
      counts as a function when it contains `def ` and as a class when it
      contains `class `. */
  function Analyze(code: string): CodeAnalysis {
    var lines := Split(code, '\n');
    var functions := LinesWith(lines, "def ");
    var classes := LinesWith(lines, "class ");
    CodeAnalysis(|lines|, |functions|, |classes|, StripAll(functions), StripAll(classes))
  }

  /** The total is one more than the number of newlines, and neither count
      exceeds it; each count is the length of its list. */
  lemma AnalyzeCounts(code: string)
    ensures var a := Analyze(code);
      a.totalLines == CountChar(code, '\n') + 1 &&
      a.functionsCount == |a.functions| <= a.totalLines &&
      a.classesCount == |a.classes| <= a.totalLines
  {
    SplitCount(code, '\n');
  }

  /** Every line that mentions `def ` (`class `) is listed, stripped, among
      the functions (classes), and every listed entry is such a line stripped;
      a line mentioning both is listed in both. */
  lemma AnalyzeMembers(code: string, l: string)
    requires l in Split(code, '\n')
    ensures Contains(l, "def ") ==> Strip(l) in Analyze(code).functions
    ensures Contains(l, "class ") ==> Strip(l) in Analyze(code).classes
  {
    var lines := Split(code, '\n');
    LinesWithMember(lines, "def ", l);
    LinesWithMember(lines, "class ", l);
    var fs := LinesWith(lines, "def ");
    var cs := LinesWith(lines, "class ");
    if Contains(l, "def ") {
      var i :| 0 <= i < |fs| && fs[i] == l;
      assert StripAll(fs)[i] == Strip(l);
    }
    if Contains(l, "class ") {
      var i :| 0 <= i < |cs| && cs[i] == l;
      assert StripAll(cs)[i] == Strip(l);
    }
  }

  lemma AnalyzeSound(code: string, i: nat)
    ensures i < |Analyze(code).functions| ==>
      exists l :: l in Split(code, '\n') && Contains(l, "def ") && Analyze(code).functions[i] == Strip(l)
    ensures i < |Analyze(code).classes| ==>
      exists l :: l in Split(code, '\n') && Contains(l, "class ") && Analyze(code).classes[i] == Strip(l)
  {
    var lines := Split(code, '\n');
    var fs := LinesWith(lines, "def ");
    var cs := LinesWith(lines, "class ");
    if i < |fs| {
      LinesWithMember(lines, "def ", fs[i]);
    }
    if i < |cs| {
      LinesWithMember(lines, "class ", cs[i]);
    }
  }

  /** The analysis is line by line: analysing two pieces of code joined by a
      newline concatenates their lists, in order, and adds their counts. */
  lemma AnalyzeConcat(a: string, b: string)
    ensures var x := Analyze(a); var y := Analyze(b); var z := Analyze(a + "\n" + b);
      z.totalLines == x.totalLines + y.totalLines &&
      z.functionsCount == x.functionsCount + y.functionsCount &&
      z.classesCount == x.classesCount + y.classesCount &&
      z.functions == x.functions + y.functions &&
      z.classes == x.classes + y.classes
  {
    SplitConcat(a, b, '\n');
    var la := Split(a, '\n');
    var lb := Split(b, '\n');
    LinesWithAppend(la, lb, "def ");
    LinesWithAppend(la, lb, "class ");
    var fa := LinesWith(la, "def ");
    var fb := LinesWith(lb, "def ");
    var ca := LinesWith(la, "class ");
    var cb := LinesWith(lb, "class ");
    StripAllAppend(fa, fb);
    StripAllAppend(ca, cb);
  }

  lemma {:induction false} StripAllAppend(x: seq<string>, y: seq<string>)
    ensures StripAll(x + y) == StripAll(x) + StripAll(y)
    decreases |y|
  {
    if y == [] {
      assert x + y == x;
    } else {
      var y' := y[..|y| - 1];
      var last := y[|y| - 1];
      assert (x + y)[..|x + y| - 1] == x + y';
      assert (x + y)[|x + y| - 1] == last;
      StripAllAppend(x, y');
      AppendAssoc(StripAll(x), StripAll(y'), [Strip(last)]);
    }
  }

}
