/** The template printer: indents lines and substitutes variables while it copies a
    text to its output. */
module Printers {
  import opened TaskManagers

  type Vars = map<string, string>

  // What printing has come to: the output, whether a line is about to begin, and
  // whether the text was refused.
  datatype Printed = Printed(out: string, atStart: bool, failed: bool) {
    // Output goes on after what there is.
    function After(before: string): Printed { Printed(before + out, atStart, failed) }
  }

  // One write: an indent goes before it at the start of a line, unless that line is empty.
  function Write(data: string, indent: string, atStart: bool): Printed {
    if atStart && data != [] && data[0] != '\n' then Printed(indent + data, false, false)
    else Printed(data, atStart, false)
  }

  // The position of the first c at or after k, or the length of the text.
  function IndexFrom(text: string, c: char, k: nat): (i: nat)
    requires k <= |text|
    ensures k <= i <= |text|
    ensures forall j :: k <= j < i ==> text[j] != c
    ensures i < |text| ==> text[i] == c
    decreases |text| - k
  {
    if k == |text| || text[k] == c then k else IndexFrom(text, c, k + 1)
  }

  // What a placeholder stands for: the delimiter itself if it is empty, else a variable.
  function Expand(varname: string, vars: Vars, delim: char): Outcome<string> {
    if varname == [] then Success([delim])
    else if varname in vars then Success(vars[varname])
    else Failure(InvalidArgument)
  }

  // The meaning of a text, character by character and placeholder by placeholder.
  function Render(text: string, vars: Vars, delim: char, indent: string, atStart: bool): Printed
    decreases |text|
  {
    if text == [] then Printed([], atStart, false)
    else if text[0] == '\n' then Render(text[1..], vars, delim, indent, true).After("\n")
    else if text[0] == delim then
      var end := IndexFrom(text, delim, 1);
      if end == |text| then Printed([], atStart, true)
      else
        var chunk := Expand(text[1..end], vars, delim);
        if chunk.Failure? then Printed([], atStart, true)
        else
          var w := Write(chunk.value, indent, atStart);
          Render(text[end + 1..], vars, delim, indent, w.atStart).After(w.out)
    else
      var w := Write([text[0]], indent, atStart);
      Render(text[1..], vars, delim, indent, w.atStart).After(w.out)
  }

  class Printer {
    const delim: char
    var out: string
    var indent: string
    var atStartOfLine: bool

    // Two blanks to a level.
    predicate Valid()
      reads this
    {
      |indent| % 2 == 0 && forall i :: 0 <= i < |indent| ==> indent[i] == ' '
    }

    constructor (delimiter: char)
      ensures Valid() && delim == delimiter && out == "" && indent == "" && atStartOfLine
    {
      delim, out, indent, atStartOfLine := delimiter, "", "", true;
    }

    method Indent()
      requires Valid()
      modifies `indent
      ensures Valid() && indent == old(indent) + "  "
    {
      indent := indent + "  ";
    }

    // Takes one level back; there must be one.
    method Outdent() returns (r: Outcome<()>)
      requires Valid()
      modifies `indent
      ensures Valid() && (r.Failure? <==> old(indent) == "")
      ensures if r.Failure? then indent == old(indent) else indent + "  " == old(indent)
    {
      if indent == "" {
        return Failure(LogicError);
      }
      indent := indent[..|indent| - 2];
      return Success(());
    }

    method WriteOut(data: string)
      modifies `out, `atStartOfLine
      ensures ghost var w := Write(data, indent, old(atStartOfLine));
              out == old(out) + w.out && atStartOfLine == w.atStart
    {
      if atStartOfLine && |data| > 0 && data[0] != '\n' {
        atStartOfLine := false;
        out := out + indent;
      }
      out := out + data;
    }

    // What is left to print, from pos on, completes the whole.
    ghost predicate Completes(text: string, pos: nat, vars: Vars, whole: Printed)
      requires pos <= |text|
      reads this
    {
      Render(text[pos..], vars, delim, indent, atStartOfLine).After(out) == whole
    }

    // The loop writes stretch by stretch; it amounts to the meaning of the text.
    method Print(text: string, vars: Vars) returns (r: Outcome<()>)
      modifies `out, `atStartOfLine
      ensures ghost var p := Render(text, vars, delim, indent, old(atStartOfLine));
              && out == old(out) + p.out && atStartOfLine == p.atStart
              && r == if p.failed then Failure(InvalidArgument) else Success(())
    {
      hide *;
      ghost var whole := CompletesAtStart(text, vars);
      var pos, i := 0, 0;
      PlainGrows(text, 0, 0, delim);
      while i < |text|
        invariant 0 <= pos <= i <= |text|
        invariant Plain(text[pos..i], delim) && Completes(text, pos, vars, whole)
      {
        if text[i] == '\n' {
          PrintLine(text, pos, i, vars, whole);
          pos := i + 1;
        } else if text[i] == delim {
          WriteRun(text, pos, i, vars, whole);
          pos := i + 1;
          var endpos := IndexFrom(text, delim, pos);
          r := Substitute(text, pos, endpos, vars, whole);
          if r.Failure? {
            return;
          }
          i, pos := endpos, endpos + 1;
        }
        i := i + 1;
        PlainGrows(text, pos, i, delim);
      }
      WriteRun(text, pos, i, vars, whole);
      CompletesAtEnd(text, vars, whole);
      return Success(());
    }

    lemma CompletesAtStart(text: string, vars: Vars) returns (whole: Printed)
      ensures Completes(text, 0, vars, whole)
      ensures ghost var p := Render(text, vars, delim, indent, atStartOfLine);
              whole.out == out + p.out && whole.atStart == p.atStart && whole.failed == p.failed
    {
      whole := Render(text, vars, delim, indent, atStartOfLine).After(out);
      assert text[0..] == text;
    }

    lemma CompletesAtEnd(text: string, vars: Vars, whole: Printed)
      requires Completes(text, |text|, vars, whole)
      ensures whole.out == out && whole.atStart == atStartOfLine && !whole.failed
    {
    }

    // A line with its end.
    method PrintLine(text: string, pos: nat, i: nat, vars: Vars, ghost whole: Printed)
      requires pos <= i < |text| && Plain(text[pos..i], delim) && text[i] == '\n' && Completes(text, pos, vars, whole)
      modifies `out, `atStartOfLine
      ensures Completes(text, i + 1, vars, whole)
    {
      LineEnds(text, pos, i, vars, delim, indent, atStartOfLine);
      hide Render, Write;
      AfterAfter(Render(text[i + 1..], vars, delim, indent, true), Write(text[pos..i + 1], indent, atStartOfLine).out, out);
      WriteOut(text[pos..i + 1]);
      atStartOfLine := true;
    }

    method WriteRun(text: string, pos: nat, i: nat, vars: Vars, ghost whole: Printed)
      requires pos <= i <= |text| && Plain(text[pos..i], delim) && Completes(text, pos, vars, whole)
      modifies `out, `atStartOfLine
      ensures Completes(text, i, vars, whole)
    {
      PlainRun(text, pos, i, vars, delim, indent, atStartOfLine);
      ghost var w := Write(text[pos..i], indent, atStartOfLine);
      hide Render, Write;
      AfterAfter(Render(text[i..], vars, delim, indent, w.atStart), w.out, out);
      WriteOut(text[pos..i]);
    }

    // The variable between the delimiters at pos - 1 and endpos.
    method Substitute(text: string, pos: nat, endpos: nat, vars: Vars, ghost whole: Printed) returns (r: Outcome<()>)
      requires 1 <= pos <= |text| && text[pos - 1] == delim && delim != '\n' && endpos == IndexFrom(text, delim, pos)
      requires Completes(text, pos - 1, vars, whole)
      modifies `out, `atStartOfLine
      ensures r.Failure? ==> r.error == InvalidArgument && whole.out == out && whole.atStart == atStartOfLine && whole.failed
      ensures r.Success? ==> endpos < |text| && Completes(text, endpos + 1, vars, whole)
    {
      PlaceholderOutcome(text, pos, endpos, vars, whole);
      hide *;
      if endpos == |text| {
        return Failure(InvalidArgument);
      }
      var varname := text[pos..endpos];
      if varname != [] && varname !in vars {
        return Failure(InvalidArgument);
      }
      var chunk := if varname == [] then [delim] else vars[varname];
      WriteOut(chunk);
      CompletesAfter(text, endpos + 1, vars, whole);
      return Success(());
    }

    lemma CompletesAfter(text: string, pos: nat, vars: Vars, whole: Printed)
      requires pos <= |text| && Render(text[pos..], vars, delim, indent, atStartOfLine).After(out) == whole
      ensures Completes(text, pos, vars, whole)
    {
    }

    lemma PlaceholderOutcome(text: string, pos: nat, endpos: nat, vars: Vars, whole: Printed)
      requires 1 <= pos <= |text| && text[pos - 1] == delim && delim != '\n' && endpos == IndexFrom(text, delim, pos)
      requires Completes(text, pos - 1, vars, whole)
      ensures if endpos == |text| || (text[pos..endpos] != [] && text[pos..endpos] !in vars) then
                whole.out == out && whole.atStart == atStartOfLine && whole.failed
              else
                ghost var w := Write(if text[pos..endpos] == [] then [delim] else vars[text[pos..endpos]], indent, atStartOfLine);
                Render(text[endpos + 1..], vars, delim, indent, w.atStart).After(out + w.out) == whole
    {
      hide *;
      PlaceholderNext(text, pos - 1, vars, delim, indent, atStartOfLine);
      RestPrints(text, pos - 1, vars, whole);
      PlaceholderTold(text, pos, endpos, vars, delim, indent, atStartOfLine, out, whole);
    }

    lemma RestPrints(text: string, pos: nat, vars: Vars, whole: Printed)
      requires pos <= |text| && Completes(text, pos, vars, whole)
      ensures Render(text[pos..], vars, delim, indent, atStartOfLine).After(out) == whole
    {
      hide Render;
    }

    // Despite its description, raw text is indented too, on its first line.
    method PrintRaw(text: string)
      modifies `out, `atStartOfLine
      ensures out == old(out) + (if old(atStartOfLine) && text != "" && text[0] != '\n' then indent else "") + text
      ensures atStartOfLine == (old(atStartOfLine) && (text == "" || text[0] == '\n'))
    {
      WriteOut(text);
    }
  }

  lemma PlainGrows(text: string, pos: nat, i: nat, delim: char)
    requires 0 <= pos <= i <= |text|
    requires pos < i ==> Plain(text[pos..i - 1], delim) && text[i - 1] != '\n' && text[i - 1] != delim
    ensures Plain(text[pos..i], delim)
  {
    forall k | 0 <= k < |text[pos..i]| ensures text[pos..i][k] != '\n' && text[pos..i][k] != delim {
      if k < i - 1 - pos { assert text[pos..i][k] == text[pos..i - 1][k]; }
    }
  }

  // No line end and no delimiter.
  ghost predicate Plain(s: string, delim: char) {
    forall k :: 0 <= k < |s| ==> s[k] != '\n' && s[k] != delim
  }

  // ------------------------------------------------- the loop and the meaning

  // A plain character is written, and the rest goes on after it.
  lemma PlainNext(text: string, i: nat, vars: Vars, delim: char, indent: string, atStart: bool)
    requires i < |text| && text[i] != '\n' && text[i] != delim
    ensures Render(text[i..], vars, delim, indent, atStart) ==
            Render(text[i + 1..], vars, delim, indent, false).After(Write([text[i]], indent, atStart).out)
  {
    assert text[i..][1..] == text[i + 1..] && text[i..][0] == text[i];
  }

  lemma WriteJoined(c: char, rest: string, indent: string, atStart: bool)
    requires c != '\n'
    ensures Write([c] + rest, indent, atStart) == Printed(Write([c], indent, atStart).out + rest, false, false)
    ensures Write(rest, indent, false) == Printed(rest, false, false)
  {
  }

  lemma AfterAfter(p: Printed, b: string, a: string)
    ensures p.After(b).After(a) == p.After(a + b)
  {
    assert a + (b + p.out) == (a + b) + p.out;
  }

  // A plain stretch is written at once, with an indent at most before it.
  lemma {:induction false} PlainRun(text: string, pos: nat, i: nat, vars: Vars, delim: char, indent: string, atStart: bool)
    requires pos <= i <= |text| && Plain(text[pos..i], delim)
    ensures ghost var w := Write(text[pos..i], indent, atStart);
            Render(text[pos..], vars, delim, indent, atStart) == Render(text[i..], vars, delim, indent, w.atStart).After(w.out)
    decreases i - pos
  {
    if pos < i {
      var c, rest := text[pos], text[pos + 1..i];
      assert text[pos..i] == [c] + rest;
      assert text[pos..i][0] == c;
      assert forall k :: 0 <= k < |rest| ==> rest[k] == text[pos..i][k + 1];
      hide Render, Write;
      PlainNext(text, pos, vars, delim, indent, atStart);
      PlainRun(text, pos + 1, i, vars, delim, indent, false);
      WriteJoined(c, rest, indent, atStart);
      AfterAfter(Render(text[i..], vars, delim, indent, false), rest, Write([c], indent, atStart).out);
    } else {
      assert text[pos..i] == [];
    }
  }

  lemma LineEnds(text: string, pos: nat, i: nat, vars: Vars, delim: char, indent: string, atStart: bool)
    requires pos <= i < |text| && Plain(text[pos..i], delim) && text[i] == '\n'
    ensures ghost var w := Write(text[pos..i + 1], indent, atStart);
            Render(text[pos..], vars, delim, indent, atStart) == Render(text[i + 1..], vars, delim, indent, true).After(w.out)
  {
    var w := Write(text[pos..i], indent, atStart);
    PlainRun(text, pos, i, vars, delim, indent, atStart);
    NewLineNext(text, i, vars, delim, indent, w.atStart);
    assert text[pos..i + 1] == text[pos..i] + "\n";
    WriteLine(text[pos..i], indent, atStart);
    hide *;
    AfterAfter(Render(text[i + 1..], vars, delim, indent, true), "\n", w.out);
  }

  lemma NewLineNext(text: string, i: nat, vars: Vars, delim: char, indent: string, atStart: bool)
    requires i < |text| && text[i] == '\n'
    ensures Render(text[i..], vars, delim, indent, atStart) == Render(text[i + 1..], vars, delim, indent, true).After("\n")
  {
    assert text[i..][1..] == text[i + 1..] && text[i..][0] == '\n';
  }

  lemma WriteLine(data: string, indent: string, atStart: bool)
    requires forall k :: 0 <= k < |data| ==> data[k] != '\n'
    ensures Write(data + "\n", indent, atStart).out == Write(data, indent, atStart).out + "\n"
  {
  }

  lemma {:induction false} IndexShift(text: string, c: char, i: nat, k: nat)
    requires i + k <= |text|
    ensures IndexFrom(text[i..], c, k) + i == IndexFrom(text, c, i + k)
    decreases |text| - i - k
  {
    if i + k < |text| && text[i + k] != c {
      IndexShift(text, c, i, k + 1);
    }
  }

  // What a placeholder at i makes of the rest.
  lemma PlaceholderNext(text: string, i: nat, vars: Vars, delim: char, indent: string, atStart: bool)
    requires i < |text| && text[i] == delim && delim != '\n'
    ensures ghost var end := IndexFrom(text, delim, i + 1);
            Render(text[i..], vars, delim, indent, atStart) ==
            if end == |text| || Expand(text[i + 1..end], vars, delim).Failure? then Printed([], atStart, true)
            else ghost var w := Write(Expand(text[i + 1..end], vars, delim).value, indent, atStart);
                 Render(text[end + 1..], vars, delim, indent, w.atStart).After(w.out)
  {
    IndexShift(text, delim, i, 1);
    PlaceholderFirst(text[i..], vars, delim, indent, atStart);
    var end := IndexFrom(text, delim, i + 1);
    hide *;
    if end < |text| {
      assert text[i..][1..end - i] == text[i + 1..end];
      assert text[i..][end - i + 1..] == text[end + 1..];
    }
  }

  lemma PlaceholderTold(text: string, pos: nat, end: nat, vars: Vars, delim: char, indent: string, atStart: bool,
                        out: string, whole: Printed)
    requires 1 <= pos <= end <= |text| && (end < |text| ==> text[end] == delim)
    requires Render(text[pos - 1..], vars, delim, indent, atStart).After(out) == whole
    requires Render(text[pos - 1..], vars, delim, indent, atStart) ==
             if end == |text| || Expand(text[pos..end], vars, delim).Failure? then Printed([], atStart, true)
             else ghost var w := Write(Expand(text[pos..end], vars, delim).value, indent, atStart);
                  Render(text[end + 1..], vars, delim, indent, w.atStart).After(w.out)
    ensures if end == |text| || (text[pos..end] != [] && text[pos..end] !in vars) then
              whole.out == out && whole.atStart == atStart && whole.failed
            else
              ghost var w := Write(if text[pos..end] == [] then [delim] else vars[text[pos..end]], indent, atStart);
              Render(text[end + 1..], vars, delim, indent, w.atStart).After(out + w.out) == whole
  {
    hide Render, Write;
    if end < |text| && (text[pos..end] == [] || text[pos..end] in vars) {
      var w := Write(if text[pos..end] == [] then [delim] else vars[text[pos..end]], indent, atStart);
      AfterAfter(Render(text[end + 1..], vars, delim, indent, w.atStart), w.out, out);
    }
  }

  lemma PlaceholderFirst(text: string, vars: Vars, delim: char, indent: string, atStart: bool)
    requires text != [] && text[0] == delim && delim != '\n'
    ensures ghost var end := IndexFrom(text, delim, 1);
            Render(text, vars, delim, indent, atStart) ==
            if end == |text| || Expand(text[1..end], vars, delim).Failure? then Printed([], atStart, true)
            else ghost var w := Write(Expand(text[1..end], vars, delim).value, indent, atStart);
                 Render(text[end + 1..], vars, delim, indent, w.atStart).After(w.out)
  {
  }

  // ------------------------------------------------------------- round trips

  function Doubled(text: string, delim: char): string {
    if text == [] then [] else (if text[0] == delim then [delim, delim] else [text[0]]) + Doubled(text[1..], delim)
  }

  // The text with an indent before every line that is not empty.
  function Indented(text: string, indent: string, atStart: bool): string {
    if text == [] then []
    else (if atStart && text[0] != '\n' then indent else []) + [text[0]] + Indented(text[1..], indent, text[0] == '\n')
  }

  function EndsLine(text: string, atStart: bool): bool {
    if text == [] then atStart else text[|text| - 1] == '\n'
  }

  // With every delimiter doubled a text is printed as it is, lines indented.
  lemma {:induction false} DoubledPrintsItself(text: string, vars: Vars, delim: char, indent: string, atStart: bool)
    requires delim != '\n'
    ensures Render(Doubled(text, delim), vars, delim, indent, atStart) ==
            Printed(Indented(text, indent, atStart), EndsLine(text, atStart), false)
  {
    if text != [] {
      var c, rest := text[0], Doubled(text[1..], delim);
      DoubledPrintsItself(text[1..], vars, delim, indent, c == '\n');
      hide Doubled, Render;
      if c == delim {
        DelimiterDoubled(rest, vars, delim, indent, atStart);
        assert Doubled(text, delim) == [delim, delim] + rest by { DoubledStep(text, delim); }
      } else {
        PlainDoubled(c, rest, vars, delim, indent, atStart);
        assert Doubled(text, delim) == [c] + rest by { DoubledStep(text, delim); }
      }
    } else {
      assert Doubled(text, delim) == [];
    }
  }

  lemma DoubledStep(text: string, delim: char)
    requires text != []
    ensures Doubled(text, delim) == (if text[0] == delim then [delim, delim] else [text[0]]) + Doubled(text[1..], delim)
  {
  }

  lemma DelimiterDoubled(rest: string, vars: Vars, delim: char, indent: string, atStart: bool)
    requires delim != '\n'
    ensures Render([delim, delim] + rest, vars, delim, indent, atStart) ==
            Render(rest, vars, delim, indent, false).After((if atStart then indent else []) + [delim])
  {
    var d := [delim, delim] + rest;
    assert IndexFrom(d, delim, 1) == 1;
    assert d[1..1] == [] && d[2..] == rest;
    PlaceholderFirst(d, vars, delim, indent, atStart);
    hide Render;
  }

  lemma PlainDoubled(c: char, rest: string, vars: Vars, delim: char, indent: string, atStart: bool)
    requires c != delim
    ensures Render([c] + rest, vars, delim, indent, atStart) ==
            Render(rest, vars, delim, indent, c == '\n').After((if atStart && c != '\n' then indent else []) + [c])
  {
    assert ([c] + rest)[1..] == rest;
  }

  // A variable between two delimiters prints as its value, at the start of a line behind
  // an indent unless the value is empty or begins with a line end.
  lemma VariablePrinted(name: string, vars: Vars, delim: char, indent: string, atStart: bool)
    requires delim != '\n' && name != "" && delim !in name && name in vars
    ensures ghost var value := vars[name];
            ghost var begins := atStart && value != "" && value[0] != '\n';
            Render([delim] + name + [delim], vars, delim, indent, atStart) ==
            Printed((if begins then indent else "") + value, atStart && !begins, false)
  {
    var text := [delim] + name + [delim];
    var end := IndexFrom(text, delim, 1);
    assert forall i :: 1 <= i <= |name| ==> text[i] == name[i - 1];
    assert text[|name| + 1] == delim;
    assert end == |name| + 1;
    assert text[1..end] == name && text[end + 1..] == [];
    PlaceholderFirst(text, vars, delim, indent, atStart);
  }

  lemma {:induction false} NoIndentNoChange(text: string, atStart: bool)
    ensures Indented(text, "", atStart) == text
  {
    if text != [] {
      NoIndentNoChange(text[1..], text[0] == '\n');
      assert text == [text[0]] + text[1..];
    }
  }

  // ------------------------------------------------------------- composition

  // Every placeholder that is opened is closed.
  predicate Balanced(text: string, delim: char)
    decreases |text|
  {
    if text == [] then true
    else if text[0] == '\n' || text[0] != delim then Balanced(text[1..], delim)
    else
      var end := IndexFrom(text, delim, 1);
      end < |text| && Balanced(text[end + 1..], delim)
  }

  function Count(text: string, c: char): nat {
    if text == [] then 0 else (if text[0] == c then 1 else 0) + Count(text[1..], c)
  }

  lemma {:induction false} CountFrom(text: string, c: char, k: nat)
    requires k <= |text|
    ensures ghost var end := IndexFrom(text, c, k);
            Count(text[k..], c) == if end == |text| then 0 else 1 + Count(text[end + 1..], c)
    decreases |text| - k
  {
    if k < |text| {
      assert text[k..][1..] == text[k + 1..];
      if text[k] != c {
        CountFrom(text, c, k + 1);
      }
    }
  }

  // That is to say, there is an even number of delimiters.
  lemma {:induction false} BalancedIsEven(text: string, delim: char)
    requires delim != '\n'
    ensures Balanced(text, delim) <==> Count(text, delim) % 2 == 0
    decreases |text|
  {
    if text != [] {
      if text[0] == delim {
        CountFrom(text, delim, 1);
        var end := IndexFrom(text, delim, 1);
        if end < |text| {
          BalancedIsEven(text[end + 1..], delim);
        }
      } else {
        BalancedIsEven(text[1..], delim);
      }
    }
  }

  // One text printed after another; a refusal ends it.
  function Then(a: Printed, text: string, vars: Vars, delim: char, indent: string): Printed {
    if a.failed then a else Render(text, vars, delim, indent, a.atStart).After(a.out)
  }

  lemma IndexInFirst(a: string, b: string, c: char, k: nat)
    requires k <= |a| && IndexFrom(a, c, k) < |a|
    ensures IndexFrom(a + b, c, k) == IndexFrom(a, c, k)
  {
    var i, j := IndexFrom(a, c, k), IndexFrom(a + b, c, k);
    assert (a + b)[i] == a[i];
    assert j <= i;
    assert (a + b)[j] == a[j];
  }

  // Printing a text in two parts is printing it whole, provided the cut is not
  // inside a placeholder.
  lemma {:induction false} PrintedInParts(a: string, b: string, vars: Vars, delim: char, indent: string, atStart: bool)
    requires Balanced(a, delim)
    ensures Render(a + b, vars, delim, indent, atStart) ==
            Then(Render(a, vars, delim, indent, atStart), b, vars, delim, indent)
    decreases |a|
  {
    if a == [] {
      assert a + b == b;
    } else if a[0] == delim && delim != '\n' {
      PlaceholderInParts(a, b, vars, delim, indent, atStart);
      var end := IndexFrom(a, delim, 1);
      hide Render, Write;
      var chunk := Expand(a[1..end], vars, delim);
      if chunk.Success? {
        var w := Write(chunk.value, indent, atStart);
        PrintedInParts(a[end + 1..], b, vars, delim, indent, w.atStart);
        AfterThen(Render(a[end + 1..], vars, delim, indent, w.atStart), w.out, b, vars, delim, indent);
      }
    } else {
      CharacterInParts(a, b, vars, delim, indent, atStart);
      hide Render;
      var w := WriteCharacter(a[0], indent, atStart);
      PrintedInParts(a[1..], b, vars, delim, indent, w.atStart);
      AfterThen(Render(a[1..], vars, delim, indent, w.atStart), w.out, b, vars, delim, indent);
    }
  }

  function WriteCharacter(c: char, indent: string, atStart: bool): Printed {
    if c == '\n' then Printed("\n", true, false) else Write([c], indent, atStart)
  }

  lemma CharacterInParts(a: string, b: string, vars: Vars, delim: char, indent: string, atStart: bool)
    requires a != [] && (a[0] != delim || a[0] == '\n')
    ensures ghost var w := WriteCharacter(a[0], indent, atStart);
            && Render(a, vars, delim, indent, atStart) == Render(a[1..], vars, delim, indent, w.atStart).After(w.out)
            && Render(a + b, vars, delim, indent, atStart) == Render(a[1..] + b, vars, delim, indent, w.atStart).After(w.out)
  {
    assert (a + b)[1..] == a[1..] + b;
  }

  lemma PlaceholderInParts(a: string, b: string, vars: Vars, delim: char, indent: string, atStart: bool)
    requires a != [] && a[0] == delim && delim != '\n' && IndexFrom(a, delim, 1) < |a|
    ensures ghost var end := IndexFrom(a, delim, 1);
            ghost var chunk := Expand(a[1..end], vars, delim);
            if chunk.Failure? then
              Render(a, vars, delim, indent, atStart) == Render(a + b, vars, delim, indent, atStart) == Printed([], atStart, true)
            else
              ghost var w := Write(chunk.value, indent, atStart);
              && Render(a, vars, delim, indent, atStart) == Render(a[end + 1..], vars, delim, indent, w.atStart).After(w.out)
              && Render(a + b, vars, delim, indent, atStart) ==
                   Render(a[end + 1..] + b, vars, delim, indent, w.atStart).After(w.out)
  {
    var end, whole := IndexFrom(a, delim, 1), a + b;
    IndexInFirst(a, b, delim, 1);
    PlaceholderFirst(a, vars, delim, indent, atStart);
    PlaceholderFirst(whole, vars, delim, indent, atStart);
    hide *;
    assert whole[1..end] == a[1..end] && whole[end + 1..] == a[end + 1..] + b;
  }

  lemma AfterThen(a: Printed, before: string, text: string, vars: Vars, delim: char, indent: string)
    ensures Then(a.After(before), text, vars, delim, indent) == Then(a, text, vars, delim, indent).After(before)
  {
    var r := Render(text, vars, delim, indent, a.atStart);
    assert before + (a.out + r.out) == (before + a.out) + r.out;
  }

  // ----------------------------------------------------------------- refusals

  // The names between delimiters, in order, up to where a placeholder is not closed.
  function Names(text: string, delim: char): seq<string>
    decreases |text|
  {
    if text == [] then []
    else if text[0] == '\n' || text[0] != delim then Names(text[1..], delim)
    else
      var end := IndexFrom(text, delim, 1);
      if end == |text| then [] else [text[1..end]] + Names(text[end + 1..], delim)
  }

  // A text is refused exactly if a placeholder is not closed or names no variable.
  lemma {:induction false} RefusedExactly(text: string, vars: Vars, delim: char, indent: string, atStart: bool)
    ensures Render(text, vars, delim, indent, atStart).failed <==>
            !Balanced(text, delim) || exists x :: x in Names(text, delim) && x != [] && x !in vars
    decreases |text|
  {
    if text == [] {
    } else if text[0] == '\n' {
      RefusedExactly(text[1..], vars, delim, indent, true);
    } else if text[0] == delim {
      var end := IndexFrom(text, delim, 1);
      if end < |text| {
        var x, rest := text[1..end], Names(text[end + 1..], delim);
        assert Names(text, delim) == [x] + rest;
        assert x in Names(text, delim);
        assert forall y :: y in Names(text, delim) <==> y == x || y in rest;
        if Expand(x, vars, delim).Success? {
          var w := Write(Expand(x, vars, delim).value, indent, atStart);
          RefusedExactly(text[end + 1..], vars, delim, indent, w.atStart);
        }
      }
    } else {
      RefusedExactly(text[1..], vars, delim, indent, Write([text[0]], indent, atStart).atStart);
    }
  }
}
