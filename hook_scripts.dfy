/**
 * The scan of a layer's `customize-hooks:` section for inline bash
 * scripts (the loop of `test_script_syntax` in the security-layer suite).
 * The text from the first `customize-hooks:` on is split into lines and
 * read by a two-variable state machine: `in_bash_script` and
 * `script_lines`. A line that strips to `- |` opens a fresh fragment;
 * inside a fragment, blank lines and `  rootfs-overlay:` lines are
 * skipped, lines indented by four spaces are kept without those four
 * characters, and any other line closes the fragment, which is handed to
 * the shell syntax check when it is non-empty and its first line starts
 * with `#!/bin/bash`. A fragment still open when the text ends is never
 * checked. `bash -n` is an oracle `syntaxOk` over the script text.
 */
module HookScripts {
  import opened Wrappers
  import opened Text

  const HooksAnchor: string := "customize-hooks:"
  const Opener: string := "- |"
  const OverlayKey: string := "  rootfs-overlay:"
  const Indent: string := "    "
  const Shebang: string := "#!/bin/bash"

  /** The values of `in_bash_script` and `script_lines`. */
  datatype Scanner = Scanner(inScript: bool, lines: seq<string>)

  const Idle: Scanner := Scanner(false, [])

  /** How the loop treats one line, decided in the order the loop tests it. */
  datatype Token =
    | OpenToken                 // strips to "- |": start a fresh fragment
    | SkipToken                 // blank, or starts with "  rootfs-overlay:": ignored
    | BodyToken(text: string)   // four-space indented: appended without the indentation
    | CloseToken                // anything else: ends an open fragment

  function Classify(line: string): Token
  {
    if Strip(line) == Opener then OpenToken
    else if Strip(line) == "" || StartsWith(line, OverlayKey) then SkipToken
    else if StartsWith(line, Indent) then BodyToken(line[|Indent|..])
    else CloseToken
  }

  /** The token of every line, in order. */
  function Tokens(lines: seq<string>): (ts: seq<Token>)
    ensures |ts| == |lines|
  {
    seq(|lines|, k requires 0 <= k < |lines| => Classify(lines[k]))
  }

  /** The tokens up to line `i` inclusive extend those before it by that line's token. */
  lemma TokensExtend(lines: seq<string>, i: nat)
    requires i < |lines|
    ensures Tokens(lines)[..i + 1] == Tokens(lines)[..i] + [Classify(lines[i])]
  {
    var ts := Tokens(lines);
    assert ts[i] == Classify(lines[i]);
    assert ts[..i + 1] == ts[..i] + [ts[i]];
  }

  /** A closed fragment that goes to the syntax check. */
  predicate IsScript(fragment: seq<string>) { fragment != [] && StartsWith(fragment[0], Shebang) }

  /** One iteration of the loop: the new state and the fragments handed to the syntax check (none or one). */
  function Step(s: Scanner, t: Token): (Scanner, seq<seq<string>>)
  {
    match t
    case OpenToken => (Scanner(true, []), [])
    case SkipToken => (s, [])
    case BodyToken(text) => if s.inScript then (Scanner(true, s.lines + [text]), []) else (s, [])
    case CloseToken => if s.inScript then (Idle, if IsScript(s.lines) then [s.lines] else []) else (s, [])
  }

  /** The loop over the lines, from state `s`: final state and every fragment checked, in order. */
  function Scan(s: Scanner, ts: seq<Token>): (Scanner, seq<seq<string>>)
  {
    if ts == [] then (s, [])
    else
      var before := Scan(s, ts[..|ts| - 1]);
      var last := Step(before.0, ts[|ts| - 1]);
      (last.0, before.1 + last.1)
  }

  /** Scanning two pieces in turn is scanning their concatenation. */
  lemma {:induction false} ScanAppend(s: Scanner, a: seq<Token>, b: seq<Token>)
    ensures Scan(s, a + b).0 == Scan(Scan(s, a).0, b).0
    ensures Scan(s, a + b).1 == Scan(s, a).1 + Scan(Scan(s, a).0, b).1
  {
    if b == [] {
      assert a + b == a;
    } else {
      var b' := b[..|b| - 1];
      var t := b[|b| - 1];
      ScanAppend(s, a, b');
      assert (a + b)[..|a + b| - 1] == a + b';
      assert (a + b)[|a + b| - 1] == t;
      var mid := Scan(s, a + b');
      assert Scan(s, a + b) == (Step(mid.0, t).0, mid.1 + Step(mid.0, t).1);
      var inner := Scan(Scan(s, a).0, b');
      assert Scan(Scan(s, a).0, b) == (Step(inner.0, t).0, inner.1 + Step(inner.0, t).1);
    }
  }

  /** One more line: the scan takes one more step. */
  lemma ScanStep(s: Scanner, ts: seq<Token>, t: Token)
    ensures Scan(s, ts + [t]) == (Step(Scan(s, ts).0, t).0, Scan(s, ts).1 + Step(Scan(s, ts).0, t).1)
  {
    assert (ts + [t])[..|ts|] == ts;
  }

  /** What has been checked after a prefix of the lines stays checked: the loop only ever adds fragments. */
  lemma ScanPrefixChecked(s: Scanner, ts: seq<Token>, k: nat)
    requires k <= |ts|
    ensures forall f :: f in Scan(s, ts[..k]).1 ==> f in Scan(s, ts).1
  {
    assert ts[..k] + ts[k..] == ts;
    ScanAppend(s, ts[..k], ts[k..]);
  }

  /**
   * An opener wipes whatever was being accumulated: what is checked after
   * it does not depend on the state before it, and the lines gathered
   * before it are never checked.
   */
  lemma OpenerDiscards(s: Scanner, before: seq<Token>, after: seq<Token>)
    ensures Scan(s, before + [OpenToken] + after).1 == Scan(s, before).1 + Scan(Scanner(true, []), after).1
  {
    ScanAppend(s, before + [OpenToken], after);
    ScanAppend(s, before, [OpenToken]);
    assert [OpenToken][..0] == [];
  }

  /** Nothing is checked without a closing line: in particular a fragment open at the end of the text is dropped. */
  lemma {:induction false} OnlyClosersEmit(s: Scanner, ts: seq<Token>)
    requires CloseToken !in ts
    ensures Scan(s, ts).1 == []
  {
    if ts != [] {
      OnlyClosersEmit(s, ts[..|ts| - 1]);
    }
  }

  /**
   * A blank line, or one starting with `  rootfs-overlay:`, changes
   * nothing: it neither opens, extends nor closes a fragment.
   */
  lemma SkippedLineKeepsState(s: Scanner, line: string)
    requires Strip(line) == "" || StartsWith(line, OverlayKey)
    ensures Step(s, Classify(line)) == (s, [])
  {
    if StartsWith(line, OverlayKey) {
      OverlayLineStrips(line);
    }
  }

  /** A `  rootfs-overlay:` line strips to text starting with `r`, so it is never an opener. */
  lemma OverlayLineStrips(line: string)
    requires StartsWith(line, OverlayKey)
    ensures Strip(line) != "" && Strip(line)[0] == 'r'
  {
    var t := line[2..];
    assert line[..|OverlayKey|] == OverlayKey;
    assert line[0] == ' ' && line[1] == ' ' && line[2] == 'r';
    assert line[1..][1..] == t;
    assert TrimStart(t) == t;
    assert TrimStart(line) == t;
    TrimEndSpec(t);
    assert t[0] == 'r';
  }

  /**
   * Inside a fragment, a non-blank line indented by four spaces that is not
   * itself an opener is appended with exactly those four characters removed.
   */
  lemma IndentedLineKept(s: Scanner, line: string)
    requires s.inScript && StartsWith(line, Indent)
    requires Strip(line) != "" && Strip(line) != Opener
    ensures Step(s, Classify(line)) == (Scanner(true, s.lines + [line[|Indent|..]]), [])
    ensures Indent + line[|Indent|..] == line
  {
    assert line[2] != OverlayKey[2];
    assert line == line[..|Indent|] + line[|Indent|..];
  }

  /** Every line of `xs` is the text of a body line among `ts`. */
  ghost predicate FromBodies(xs: seq<string>, ts: seq<Token>)
  {
    forall x :: x in xs ==> BodyToken(x) in ts
  }

  /**
   * Every checked fragment starts with `#!/bin/bash` and consists of
   * four-space-indented lines of the section with the indentation removed.
   */
  lemma {:induction false} CheckedFragmentsWellFormed(ts: seq<Token>)
    ensures FromBodies(Scan(Idle, ts).0.lines, ts)
    ensures forall f :: f in Scan(Idle, ts).1 ==> IsScript(f) && FromBodies(f, ts)
  {
    if ts != [] {
      var init := ts[..|ts| - 1];
      CheckedFragmentsWellFormed(init);
      assert ts == init + [ts[|ts| - 1]];
    }
  }

  /** The lines `content[content.find("customize-hooks:"):].split('\n')`, or None when the anchor is absent. */
  function HookLines(content: string): (r: Option<seq<string>>)
    ensures r == None <==> !Contains(content, HooksAnchor)
  {
    var start := Find(content, HooksAnchor);
    if start == -1 then None else Some(Split(content[start..], '\n'))
  }

  /** The fragments of one layer that reach the syntax check, in source order. */
  function CheckedScripts(content: string): (r: seq<seq<string>>)
  {
    match HookLines(content)
    case None => []
    case Some(lines) => Scan(Idle, Tokens(lines)).1
  }

  /** A layer passes when every checked fragment, joined with newlines, passes the shell syntax check. */
  ghost predicate ScriptsPass(content: string, syntaxOk: string -> bool)
  {
    forall f :: f in CheckedScripts(content) ==> syntaxOk(Join(f, '\n'))
  }

  /**
   * The body of the line loop, up to the syntax check: the new values of
   * `in_bash_script` and `script_lines`, and the fragment to check when
   * this line closes one.
   */
  method AdvanceLine(inScript: bool, scriptLines: seq<string>, line: string)
    returns (inScript': bool, scriptLines': seq<string>, emitted: seq<seq<string>>)
    ensures (Scanner(inScript', scriptLines'), emitted) == Step(Scanner(inScript, scriptLines), Classify(line))
  {
    inScript', scriptLines', emitted := inScript, scriptLines, [];
    var stripped := Strip(line);
    if stripped == Opener {
      inScript' := true;
      scriptLines' := [];
    } else if inScript && stripped != "" && !StartsWith(line, OverlayKey) {
      if StartsWith(line, Indent) {
        scriptLines' := scriptLines + [line[|Indent|..]];
      } else {
        if scriptLines != [] && StartsWith(scriptLines[0], Shebang) {
          emitted := [scriptLines];
        }
        inScript' := false;
        scriptLines' := [];
      }
    }
  }

  /** The state after line `i` is one step from the state before it. */
  lemma ScanLine(lines: seq<string>, i: nat, s: Scanner, checked: seq<seq<string>>)
    requires i < |lines|
    requires Scan(Idle, Tokens(lines)[..i]) == (s, checked)
    ensures Scan(Idle, Tokens(lines)[..i + 1]) ==
      (Step(s, Classify(lines[i])).0, checked + Step(s, Classify(lines[i])).1)
  {
    TokensExtend(lines, i);
    ScanStep(Idle, Tokens(lines)[..i], Classify(lines[i]));
  }

  /** The line loop of `test_script_syntax` for one layer, returning False at the first fragment with a syntax error. */
  method CheckLayerScripts(content: string, syntaxOk: string -> bool) returns (ok: bool)
    ensures ok <==> ScriptsPass(content, syntaxOk)
  {
    var start := Find(content, HooksAnchor);
    if start == -1 {
      return true;
    }
    var lines := Split(content[start..], '\n');
    ghost var ts := Tokens(lines);
    var inScript := false;
    var scriptLines: seq<string> := [];
    ghost var checked: seq<seq<string>> := [];
    for i := 0 to |lines|
      invariant Scan(Idle, ts[..i]) == (Scanner(inScript, scriptLines), checked)
      invariant forall f :: f in checked ==> syntaxOk(Join(f, '\n'))
    {
      ScanLine(lines, i, Scanner(inScript, scriptLines), checked);
      var emitted;
      inScript, scriptLines, emitted := AdvanceLine(inScript, scriptLines, lines[i]);
      if emitted != [] && !syntaxOk(Join(emitted[0], '\n')) {
        assert emitted[0] in Scan(Idle, ts[..i + 1]).1;
        ScanPrefixChecked(Idle, ts, i + 1);
        return false;
      }
      checked := checked + emitted;
    }
    assert ts[..|lines|] == ts;
    return true;
  }
}
