/**
 * Chain declarations in iptables-save text: printing one, and finding all of
 * them in a table by searching for ":" at the start of a line.
 */
module ChainTable {
  import opened Collections
  import opened Strs

  /** MakeChainLine. */
  function MakeChainLine(chain: string): string
  {
    ":" + chain + " - [0:0]"
  }

  /** bytes.Index(s, "\n:"). */
  function FindColonLine(s: string): (r: Option<nat>)
    ensures r.Some? ==> r.value + 2 <= |s|
  {
    if |s| < 2 then None
    else if s[0] == '\n' && s[1] == ':' then Some(0)
    else
      match FindColonLine(s[1..])
      case None => None
      case Some(i) => Some(i + 1)
  }

  /** bytes.Index(s, " "). */
  function FindSpace(s: string): (r: Option<nat>)
    ensures r.Some? ==> r.value < |s|
  {
    if s == "" then None
    else if s[0] == ' ' then Some(0)
    else
      match FindSpace(s[1..])
      case None => None
      case Some(i) => Some(i + 1)
  }

  lemma {:induction false} FindSpaceMeans(s: string)
    ensures FindSpace(s).None? <==> ' ' !in s
    ensures FindSpace(s).Some? ==> s[FindSpace(s).value] == ' ' && ' ' !in s[..FindSpace(s).value]
  {
    if s != "" && s[0] != ' ' {
      FindSpaceMeans(s[1..]);
      assert s == [s[0]] + s[1..];
      if FindSpace(s[1..]).Some? {
        var i := FindSpace(s[1..]).value;
        assert s[..i + 1] == [s[0]] + s[1..][..i];
      }
    }
  }

  lemma {:induction false} FindColonLineMeans(s: string)
    ensures FindColonLine(s).Some? ==> s[FindColonLine(s).value] == '\n' && s[FindColonLine(s).value + 1] == ':'
  {
    if |s| >= 2 && !(s[0] == '\n' && s[1] == ':') {
      FindColonLineMeans(s[1..]);
    }
  }

  function With(names: set<string>, r: Option<set<string>>): Option<set<string>>
  {
    match r
    case None => None
    case Some(found) => Some(names + found)
  }

  /** GetChainsFromTable; None is the slice bound -1 it runs into when no space follows a ":". */
  function Scan(save: string): Option<set<string>>
    decreases |save|, 0
  {
    match FindColonLine(save)
    case None => Some({})
    case Some(i) => ScanName(save[i + 2..])
  }

  /** From behind a ":" on: the name up to the next space, then the rest. */
  function ScanName(rest: string): Option<set<string>>
    decreases |rest|, 1
  {
    match FindSpace(rest)
    case None => None
    case Some(end) => With({rest[..end]}, Scan(rest[end..]))
  }

  method GetChainsFromTable(text: string) returns (r: Option<set<string>>)
    ensures r == Scan(text)
  {
    var chainsMap: set<string> := {};
    var save := text;
    WithNothing(Scan(text));
    while true
      invariant Scan(text) == With(chainsMap, Scan(save))
      decreases |save|
    {
      var i := FindColonLine(save);
      if i.None? {
        break;
      }
      var rest := save[i.value + 2..];
      var end := FindSpace(rest);
      if end.None? {
        return None;
      }
      WithTwice(chainsMap, {rest[..end.value]}, Scan(rest[end.value..]));
      chainsMap := chainsMap + {rest[..end.value]};
      save := rest[end.value..];
    }
    assert chainsMap + {} == chainsMap;
    return Some(chainsMap);
  }

  lemma WithNothing(r: Option<set<string>>)
    ensures With({}, r) == r
  {
    if r.Some? { assert {} + r.value == r.value; }
  }

  lemma WithTwice(a: set<string>, b: set<string>, r: Option<set<string>>)
    ensures With(a, With(b, r)) == With(a + b, r)
  {
    if r.Some? { assert a + (b + r.value) == a + b + r.value; }
  }

  // ---------- what the lines of a table declare ----------

  predicate Declares(line: string)
  {
    line != "" && line[0] == ':'
  }

  /** The name on a declaration: what stands between ":" and the first space. */
  function NameOn(line: string): string
    requires Declares(line) && ' ' in line
  {
    SpaceBehindColon(line);
    line[1..1 + FindSpace(line[1..]).value]
  }

  function Declared(lines: seq<string>): set<string>
  {
    if lines == [] then {}
    else (if Declares(lines[0]) && ' ' in lines[0] then {NameOn(lines[0])} else {}) + Declared(lines[1..])
  }

  predicate AllSpaced(lines: seq<string>)
  {
    forall i :: 0 <= i < |lines| && Declares(lines[i]) ==> ' ' in lines[i]
  }

  // ---------- searching line by line ----------

  lemma {:induction false} FindInOneLine(line: string)
    requires '\n' !in line
    ensures FindColonLine(line) == None
  {
    if |line| >= 2 { FindInOneLine(line[1..]); }
  }

  lemma {:induction false} FindSkipsLine(line: string, rest: string)
    requires '\n' !in line
    ensures FindColonLine(line + "\n" + rest) ==
            if rest != "" && rest[0] == ':' then Some(|line|)
            else match FindColonLine(rest) case None => None case Some(i) => Some(|line| + 1 + i)
  {
    var s := line + "\n" + rest;
    if line == "" {
      assert s[1..] == rest;
    } else {
      assert s[1..] == line[1..] + "\n" + rest;
      FindSkipsLine(line[1..], rest);
    }
  }

  lemma DropConcat(a: string, b: string, i: nat)
    requires i <= |b|
    ensures (a + b)[|a| + i..] == b[i..]
  {
  }

  lemma ScanAt(s: string, i: nat)
    requires FindColonLine(s) == Some(i)
    ensures Scan(s) == ScanName(s[i + 2..])
  {
  }

  /** A line that declares nothing can be dropped from the front. */
  lemma ScanSkipsLine(line: string, rest: string)
    requires '\n' !in line && !Declares(rest)
    ensures Scan(line + "\n" + rest) == Scan(rest)
  {
    var s := line + "\n" + rest;
    FindSkipsLine(line, rest);
    match FindColonLine(rest) {
      case None =>
        assert Scan(s) == Some({}) && Scan(rest) == Some({});
      case Some(i) =>
        ScanAt(rest, i);
        ScanAt(s, |line| + 1 + i);
        DropConcat(line + "\n", rest, i + 2);
    }
  }

  lemma {:induction false} FindSpaceConcat(a: string, b: string)
    ensures FindSpace(a + b) ==
            if FindSpace(a).Some? then FindSpace(a)
            else match FindSpace(b) case None => None case Some(i) => Some(|a| + i)
  {
    if a == "" {
      assert a + b == b;
    } else {
      assert (a + b)[1..] == a[1..] + b;
      FindSpaceConcat(a[1..], b);
    }
  }

  /** At a declaration the scan goes on behind the ":". */
  lemma ScanEntersLine(line: string, decl: string, more: string)
    requires '\n' !in line && Declares(decl)
    ensures Scan(line + "\n" + (decl + more)) == ScanName(decl[1..] + more)
  {
    FindSkipsLine(line, decl + more);
    DropConcat(line + "\n", decl + more, 1);
    assert (decl + more)[1..] == decl[1..] + more;
  }

  /** With a space in reach it takes the name and goes on behind it. */
  lemma ScanTakesName(body: string, more: string)
    requires FindSpace(body).Some?
    ensures var end := FindSpace(body).value;
            ScanName(body + more) == With({body[..end]}, Scan(body[end..] + more))
  {
    FindSpaceConcat(body, more);
    var end := FindSpace(body).value;
    assert (body + more)[..end] == body[..end];
    assert (body + more)[end..] == body[end..] + more;
  }

  lemma NoNewlineIn(s: string, i: nat)
    requires '\n' !in s && i <= |s|
    ensures '\n' !in s[i..]
  {
  }

  /** The text behind the first line. */
  function Tail(lines: seq<string>): string
    requires lines != []
  {
    if |lines| == 1 then "" else "\n" + Join(lines[1..], '\n')
  }

  lemma JoinIsHeadTail(lines: seq<string>)
    requires lines != []
    ensures Join(lines, '\n') == lines[0] + Tail(lines)
  {
  }

  lemma JoinTwoHeads(lines: seq<string>)
    requires |lines| >= 2
    ensures Join(lines, '\n') == lines[0] + "\n" + (lines[1] + Tail(lines[1..]))
  {
    JoinIsHeadTail(lines[1..]);
  }

  lemma SpaceBehindColon(decl: string)
    requires Declares(decl) && ' ' in decl
    ensures ' ' in decl[1..] && FindSpace(decl[1..]).Some?
  {
    assert decl == [decl[0]] + decl[1..];
    FindSpaceMeans(decl[1..]);
  }

  lemma TailSame(a: seq<string>, b: seq<string>)
    requires a != [] && b != [] && a[1..] == b[1..]
    ensures Tail(a) == Tail(b)
  {
    assert |a| == |a[1..]| + 1 && |b| == |b[1..]| + 1;
  }

  /** The table that is left once the name on its second line is taken. */
  function Left(lines: seq<string>): seq<string>
    requires |lines| >= 2 && Declares(lines[1]) && ' ' in lines[1]
  {
    SpaceBehindColon(lines[1]);
    [lines[1][1..][FindSpace(lines[1][1..]).value..]] + lines[2..]
  }

  lemma LeftJoins(lines: seq<string>)
    requires |lines| >= 2 && Declares(lines[1]) && ' ' in lines[1]
    ensures Join(Left(lines), '\n') == Left(lines)[0] + Tail(lines[1..])
    ensures Left(lines)[1..] == lines[1..][1..]
  {
    assert Left(lines)[1..] == lines[1..][1..];
    JoinIsHeadTail(Left(lines));
    TailSame(Left(lines), lines[1..]);
  }

  lemma ScanDeclaration(line: string, decl: string, more: string)
    requires '\n' !in line && Declares(decl) && ' ' in decl
    ensures FindSpace(decl[1..]).Some?
    ensures Scan(line + "\n" + (decl + more)) ==
            With({NameOn(decl)}, Scan(decl[1..][FindSpace(decl[1..]).value..] + more))
  {
    SpaceBehindColon(decl);
    ScanEntersLine(line, decl, more);
    ScanTakesName(decl[1..], more);
    NameOnIs(decl);
  }

  lemma NameOnIs(decl: string)
    requires Declares(decl) && ' ' in decl && FindSpace(decl[1..]).Some?
    ensures NameOn(decl) == decl[1..][..FindSpace(decl[1..]).value]
  {
  }

  lemma ScanPastDeclaration(lines: seq<string>)
    requires |lines| >= 2 && AllFree(lines, '\n') && Declares(lines[1]) && ' ' in lines[1]
    ensures Scan(Join(lines, '\n')) == With({NameOn(lines[1])}, Scan(Join(Left(lines), '\n')))
  {
    JoinTwoHeads(lines);
    ScanDeclaration(lines[0], lines[1], Tail(lines[1..]));
    LeftJoins(lines);
  }

  lemma ScanPastPlainLine(lines: seq<string>)
    requires |lines| >= 2 && AllFree(lines, '\n') && !Declares(lines[1])
    ensures Scan(Join(lines, '\n')) == Scan(Join(lines[1..], '\n'))
  {
    var text := Join(lines[1..], '\n');
    JoinIsHeadTail(lines[1..]);
    assert lines[1] == "" ==> text == Tail(lines[1..]);
    assert Join(lines, '\n') == lines[0] + "\n" + text;
    ScanSkipsLine(lines[0], text);
  }

  lemma DeclaredStep(lines: seq<string>)
    requires |lines| >= 2 && (Declares(lines[1]) ==> ' ' in lines[1])
    ensures Declared(lines[1..]) == (if Declares(lines[1]) then {NameOn(lines[1])} else {}) + Declared(lines[1..][1..])
  {
    assert lines[1..][0] == lines[1];
  }

  /** On a table whose declarations all have their space, the scan finds exactly the declared names. */
  lemma {:induction false} ScanFindsDeclared(lines: seq<string>)
    requires lines != [] && AllFree(lines, '\n') && AllSpaced(lines[1..])
    ensures Scan(Join(lines, '\n')) == Some(Declared(lines[1..]))
    decreases |lines|
  {
    if |lines| == 1 {
      FindInOneLine(lines[0]);
    } else {
      assert lines[1..][0] == lines[1];
      DeclaredStep(lines);
      if Declares(lines[1]) {
        ScanPastDeclaration(lines);
        LeftJoins(lines);
        LeftIsFree(lines);
        ScanFindsDeclared(Left(lines));
      } else {
        ScanPastPlainLine(lines);
        ScanFindsDeclared(lines[1..]);
        assert {} + Declared(lines[1..][1..]) == Declared(lines[1..][1..]);
      }
    }
  }

  lemma LeftIsFree(lines: seq<string>)
    requires |lines| >= 2 && AllFree(lines, '\n') && Declares(lines[1]) && ' ' in lines[1]
    ensures AllFree(Left(lines), '\n')
  {
    SpaceBehindColon(lines[1]);
    NoNewlineIn(lines[1], 1);
    NoNewlineIn(lines[1][1..], FindSpace(lines[1][1..]).value);
  }

  lemma NameOnChainLine(name: string)
    requires ' ' !in name && '\n' !in name
    ensures var line := MakeChainLine(name);
            Declares(line) && ' ' in line && NameOn(line) == name && '\n' !in line
  {
    var line := MakeChainLine(name);
    assert line[1..] == name + " - [0:0]";
    FindSpaceConcat(name, " - [0:0]");
    FindSpaceMeans(name);
    assert FindSpace(" - [0:0]") == Some(0);
    assert line[1 + |name|] == ' ';
    assert line[1..1 + |name|] == name;
  }

  function ChainLines(names: seq<string>): seq<string>
  {
    seq(|names|, i requires 0 <= i < |names| => MakeChainLine(names[i]))
  }

  lemma ChainLinesSpaced(names: seq<string>, more: seq<string>)
    requires forall i :: 0 <= i < |names| ==> ' ' !in names[i] && '\n' !in names[i]
    requires AllFree(more, '\n') && forall i :: 0 <= i < |more| ==> !Declares(more[i])
    ensures AllFree(ChainLines(names) + more, '\n') && AllSpaced(ChainLines(names) + more)
  {
    forall i | 0 <= i < |names|
      ensures '\n' !in ChainLines(names)[i] && ' ' in ChainLines(names)[i]
    {
      NameOnChainLine(names[i]);
    }
  }

  lemma {:induction false} DeclaredChainLines(names: seq<string>, more: seq<string>)
    requires forall i :: 0 <= i < |names| ==> ' ' !in names[i] && '\n' !in names[i]
    requires forall i :: 0 <= i < |more| ==> !Declares(more[i])
    ensures Declared(ChainLines(names) + more) == set n | n in names
  {
    var lines := ChainLines(names) + more;
    if names == [] {
      assert lines == more;
      DeclaredNothing(more);
    } else {
      NameOnChainLine(names[0]);
      assert lines[0] == MakeChainLine(names[0]) && lines[1..] == ChainLines(names[1..]) + more;
      DeclaredChainLines(names[1..], more);
      assert forall n :: n in names <==> n == names[0] || n in names[1..];
    }
  }

  lemma {:induction false} DeclaredNothing(lines: seq<string>)
    requires forall i :: 0 <= i < |lines| ==> !Declares(lines[i])
    ensures Declared(lines) == {}
  {
    if lines != [] { DeclaredNothing(lines[1..]); }
  }

  /** A header, chain lines for names without space or newline, and other lines: the scan gives back the names. */
  lemma PrintedChainsAreFound(header: string, names: seq<string>, more: seq<string>)
    requires '\n' !in header
    requires forall i :: 0 <= i < |names| ==> ' ' !in names[i] && '\n' !in names[i]
    requires AllFree(more, '\n') && forall i :: 0 <= i < |more| ==> !Declares(more[i])
    ensures Scan(Join([header] + (ChainLines(names) + more), '\n')) == Some(set n | n in names)
  {
    var lines := [header] + (ChainLines(names) + more);
    DeclaredChainLines(names, more);
    ChainLinesSpaced(names, more);
    assert lines[1..] == ChainLines(names) + more;
    assert AllFree(lines, '\n') by {
      forall i | 0 <= i < |lines| ensures '\n' !in lines[i] { assert i > 0 ==> lines[i] == lines[1..][i - 1]; }
    }
    ScanFindsDeclared(lines);
  }

  // ---------- exactly when it works ----------

  /** A "\n:" with no space anywhere behind it. */
  predicate Unfinished(s: string, i: nat)
  {
    i + 2 <= |s| && s[i] == '\n' && s[i + 1] == ':' && ' ' !in s[i + 2..]
  }

  lemma {:induction false} FindsFirst(s: string, i: nat)
    requires i + 2 <= |s| && s[i] == '\n' && s[i + 1] == ':'
    ensures FindColonLine(s).Some? && FindColonLine(s).value <= i
  {
    if i > 0 && !(s[0] == '\n' && s[1] == ':') { FindsFirst(s[1..], i - 1); }
  }

  /** The first space behind an earlier ":" lies before a ":" that has none behind it. */
  lemma SpaceBefore(s: string, f: nat, e: nat, i: nat)
    requires Unfinished(s, i) && f <= i && f + 2 + e < |s| && s[f + 2 + e] == ' '
    ensures f + 2 + e < i
  {
    assert forall j :: i + 2 <= j < |s| ==> s[j] == s[i + 2..][j - (i + 2)];
  }

  lemma UnfinishedInSuffix(s: string, at: nat, i: nat)
    requires at <= i <= |s|
    ensures Unfinished(s, i) <==> Unfinished(s[at..], i - at)
  {
    if i + 2 <= |s| { assert s[at..][i - at + 2..] == s[i + 2..]; }
  }

  lemma ScanOnePastName(s: string, f: nat, e: nat)
    requires FindColonLine(s) == Some(f) && FindSpace(s[f + 2..]) == Some(e)
    ensures f + 2 + e < |s| && s[f + 2 + e] == ' '
    ensures Scan(s) == With({s[f + 2..][..e]}, Scan(s[f + 2 + e..]))
  {
    ScanAt(s, f);
    FindSpaceMeans(s[f + 2..]);
    assert s[f + 2..][e..] == s[f + 2 + e..];
  }

  lemma ScanStops(s: string, f: nat)
    requires FindColonLine(s) == Some(f) && FindSpace(s[f + 2..]) == None
    ensures Scan(s) == None && Unfinished(s, f)
  {
    ScanAt(s, f);
    FindColonLineMeans(s);
    FindSpaceMeans(s[f + 2..]);
  }

  lemma {:induction false} UnfinishedCrashes(s: string, i: nat)
    requires Unfinished(s, i)
    ensures Scan(s) == None
    decreases |s|
  {
    FindsFirst(s, i);
    var f := FindColonLine(s).value;
    match FindSpace(s[f + 2..]) {
      case None => ScanStops(s, f);
      case Some(e) =>
        ScanOnePastName(s, f, e);
        SpaceBefore(s, f, e, i);
        UnfinishedInSuffix(s, f + 2 + e, i);
        UnfinishedCrashes(s[f + 2 + e..], i - (f + 2 + e));
    }
  }

  lemma {:induction false} CrashNeedsUnfinished(s: string) returns (i: nat)
    requires Scan(s) == None
    ensures Unfinished(s, i)
    decreases |s|
  {
    var f := FindColonLine(s).value;
    match FindSpace(s[f + 2..]) {
      case None =>
        ScanStops(s, f);
        i := f;
      case Some(e) =>
        ScanOnePastName(s, f, e);
        var i' := CrashNeedsUnfinished(s[f + 2 + e..]);
        i := f + 2 + e + i';
        UnfinishedInSuffix(s, f + 2 + e, i);
    }
  }

  /** The scan runs out of bounds exactly when some ":" at the start of a line has no space anywhere behind it. */
  lemma CrashesIff(s: string)
    ensures Scan(s) == None <==> exists i :: Unfinished(s, i)
  {
    if Scan(s) == None { var i := CrashNeedsUnfinished(s); }
    if i :| Unfinished(s, i) { UnfinishedCrashes(s, i); }
  }

  /** At a declaration without its space the name found, if any, runs on over the end of the line. */
  lemma ScanOverrunsLine(line: string, decl: string, next: string)
    requires '\n' !in line && Declares(decl) && ' ' !in decl
    ensures var found := Scan(line + "\n" + (decl + ("\n" + next)));
            found.Some? ==> exists n :: n in found.value && decl[1..] + "\n" <= n
  {
    var more := "\n" + next;
    ScanEntersLine(line, decl, more);
    var body := decl[1..];
    FindSpaceConcat(body, more);
    FindSpaceMeans(body);
    FindSpaceMeans(body + more);
    if Scan(line + "\n" + (decl + more)).Some? {
      var end := FindSpace(body + more).value;
      assert more[end - |body|] == ' ';
      assert body + "\n" == (body + more)[..|body| + 1];
      assert body + "\n" <= (body + more)[..end];
      assert (body + more)[..end] in Scan(line + "\n" + (decl + more)).value;
    }
  }

  ghost predicate Overruns(r: Option<set<string>>)
  {
    r.Some? ==> exists n :: n in r.value && '\n' in n
  }

  lemma OverrunAtLine(lines: seq<string>)
    requires |lines| >= 2 && AllFree(lines, '\n') && Declares(lines[1]) && ' ' !in lines[1]
    ensures Overruns(Scan(Join(lines, '\n')))
  {
    JoinTwoHeads(lines);
    if |lines| == 2 {
      ScanEntersLine(lines[0], lines[1], "");
      assert lines[1][1..] + "" == lines[1][1..] && Tail(lines[1..]) == "";
      FindSpaceMeans(lines[1][1..]);
    } else {
      var next := Join(lines[1..][1..], '\n');
      ScanOverrunsLine(lines[0], lines[1], next);
      var found := Scan(Join(lines, '\n'));
      if found.Some? {
        var n :| n in found.value && lines[1][1..] + "\n" <= n;
        assert n[|lines[1]| - 1] == '\n';
      }
    }
  }

  lemma {:induction false} UnspacedOverruns(lines: seq<string>)
    requires lines != [] && AllFree(lines, '\n') && !AllSpaced(lines[1..])
    ensures Overruns(Scan(Join(lines, '\n')))
    decreases |lines|
  {
    var i :| 0 <= i < |lines[1..]| && Declares(lines[1..][i]) && ' ' !in lines[1..][i];
    if Declares(lines[1]) && ' ' !in lines[1] {
      OverrunAtLine(lines);
    } else {
      assert lines[1..][1..][i - 1] == lines[1..][i];
      if Declares(lines[1]) {
        ScanPastDeclaration(lines);
        LeftJoins(lines);
        LeftIsFree(lines);
        UnspacedOverruns(Left(lines));
      } else {
        ScanPastPlainLine(lines);
        UnspacedOverruns(lines[1..]);
      }
    }
  }

  lemma {:induction false} DeclaredFitOnLines(lines: seq<string>, n: string)
    requires AllFree(lines, '\n') && n in Declared(lines)
    ensures '\n' !in n
  {
    if Declares(lines[0]) && ' ' in lines[0] && n == NameOn(lines[0]) {
      SpaceBehindColon(lines[0]);
    } else {
      DeclaredFitOnLines(lines[1..], n);
    }
  }

  /** For every text: the scan returns exactly the declared chains if and only if every declaration has its space. */
  lemma ScanExactIff(text: string)
    ensures var lines := Split(text, '\n');
            Scan(text) == Some(Declared(lines[1..])) <==> AllSpaced(lines[1..])
  {
    var lines := Split(text, '\n');
    JoinSplit(text, '\n');
    if AllSpaced(lines[1..]) {
      ScanFindsDeclared(lines);
    } else {
      UnspacedOverruns(lines);
      if Scan(text) == Some(Declared(lines[1..])) {
        var n :| n in Declared(lines[1..]) && '\n' in n;
        DeclaredFitOnLines(lines[1..], n);
      }
    }
  }
}
