/**
 * The command-line flag that lists the resources shared by a node pool:
 * printing the list, parsing it back, and exactly which lists survive that.
 */
module PoolScopeFlag {
  import opened Strs

  datatype GVR = GVR(group: string, version: string, resource: string)

  function Print(g: GVR): string
  {
    Join([g.group, g.version, g.resource], '/')
  }

  function PrintedParts(gs: seq<GVR>): seq<string>
  {
    seq(|gs|, i requires 0 <= i < |gs| => Print(gs[i]))
  }

  function PrintAll(gs: seq<GVR>): string
  {
    Join(PrintedParts(gs), ',')
  }

  datatype Parsed = Bad | Good(gvr: GVR)

  function ParsePart(part: string): Parsed
  {
    var sub := Split(part, '/');
    if |sub| != 3 then Bad else Good(GVR(TrimSpace(sub[0]), TrimSpace(sub[1]), TrimSpace(sub[2])))
  }

  /** The resources of the parts before the first bad one. */
  function ParseParts(parts: seq<string>): (r: (bool, seq<GVR>))
    ensures |r.1| <= |parts| && (r.0 ==> |r.1| == |parts|)
  {
    if parts == [] then (true, [])
    else
      match ParsePart(parts[0])
      case Bad => (false, [])
      case Good(g) =>
        var (ok, rest) := ParseParts(parts[1..]);
        (ok, [g] + rest)
  }

  predicate CleanField(s: string)
  {
    ',' !in s && '/' !in s && NoOuterSpace(s)
  }

  predicate Clean(g: GVR)
  {
    CleanField(g.group) && CleanField(g.version) && CleanField(g.resource)
  }

  class PoolScopeMetadatas {
    var list: seq<GVR>

    constructor (initial: seq<GVR>)
      ensures list == initial
    {
      list := initial;
    }

    /** String: fields joined by "/", entries by ",". */
    method ToText() returns (text: string)
      ensures text == PrintAll(list)
    {
      text := "";
      var i := 0;
      while i < |list|
        invariant 0 <= i <= |list| && text == PrintAll(list[..i])
      {
        PrintAllSnoc(list[..i], list[i]);
        assert list[..i] + [list[i]] == list[..i + 1];
        if i > 0 {
          text := text + ",";
        }
        text := text + list[i].group + "/" + list[i].version + "/" + list[i].resource;
        i := i + 1;
      }
      assert list[..i] == list;
    }

    /** Set appends what it parses; on a bad part the parts before it stay appended. */
    method Set(value: string) returns (ok: bool)
      modifies this
      ensures ok == ParseParts(Split(value, ',')).0
      ensures list == old(list) + ParseParts(Split(value, ',')).1
    {
      var parts := Split(value, ',');
      var i := 0;
      ghost var done: seq<GVR> := [];
      assert parts[0..] == parts && done + ParseParts(parts).1 == ParseParts(parts).1;
      while i < |parts|
        invariant 0 <= i <= |parts|
        invariant ParsedSoFar(parts, i, done) && list == old(list) + done
      {
        var parsed := ParseOne(parts[i]);
        ParseStep(parts, i, done);
        if parsed.Bad? {
          return false;
        }
        list := list + [parsed.gvr];
        done := done + [parsed.gvr];
        i := i + 1;
      }
      assert parts[i..] == [] && done + [] == done;
      return true;
    }
  }

  method ParseOne(part: string) returns (parsed: Parsed)
    ensures parsed == ParsePart(part)
  {
    var subParts := Split(part, '/');
    if |subParts| != 3 {
      return Bad;
    }
    parsed := Good(GVR(TrimSpace(subParts[0]), TrimSpace(subParts[1]), TrimSpace(subParts[2])));
  }

  /** The parts before i gave done, and the rest decides. */
  predicate ParsedSoFar(parts: seq<string>, i: nat, done: seq<GVR>)
    requires i <= |parts|
  {
    var rest := ParseParts(parts[i..]);
    ParseParts(parts) == (rest.0, done + rest.1)
  }

  lemma ParseStep(parts: seq<string>, i: nat, done: seq<GVR>)
    requires i < |parts| && ParsedSoFar(parts, i, done)
    ensures ParsePart(parts[i]).Bad? ==> ParseParts(parts) == (false, done)
    ensures ParsePart(parts[i]).Good? ==> ParsedSoFar(parts, i + 1, done + [ParsePart(parts[i]).gvr])
  {
    assert parts[i..][0] == parts[i] && parts[i..][1..] == parts[i + 1..];
    var rest := ParseParts(parts[i + 1..]).1;
    match ParsePart(parts[i]) {
      case Bad => assert done + [] == done;
      case Good(g) => assert done + ([g] + rest) == done + [g] + rest;
    }
  }

  lemma PrintOf(g: GVR)
    ensures Print(g) == g.group + "/" + g.version + "/" + g.resource
  {
    var parts := [g.group, g.version, g.resource];
    assert parts[1..] == [g.version, g.resource];
    assert parts[1..][1..] == [g.resource];
    assert Join(parts[1..], '/') == g.version + ['/'] + g.resource;
  }

  lemma {:induction false} JoinSnoc(parts: seq<string>, last: string, sep: char)
    ensures Join(parts + [last], sep) == if parts == [] then last else Join(parts, sep) + [sep] + last
  {
    if |parts| > 1 {
      JoinSnoc(parts[1..], last, sep);
      assert (parts + [last])[1..] == parts[1..] + [last];
    } else if |parts| == 1 {
      assert (parts + [last])[1..] == [last];
    }
  }

  lemma PrintAllSnoc(gs: seq<GVR>, g: GVR)
    ensures PrintAll(gs + [g]) ==
            PrintAll(gs) + (if gs == [] then "" else ",") + g.group + "/" + g.version + "/" + g.resource
  {
    assert PrintedParts(gs + [g]) == PrintedParts(gs) + [Print(g)];
    JoinSnoc(PrintedParts(gs), Print(g), ',');
    PrintOf(g);
  }

  lemma TrimKeeps(s: string)
    requires NoOuterSpace(s)
    ensures TrimSpace(s) == s
  {
  }

  lemma CleanPartParses(g: GVR)
    requires Clean(g)
    ensures ParsePart(Print(g)) == Good(g) && ',' !in Print(g)
  {
    SplitJoin([g.group, g.version, g.resource], '/');
    TrimKeeps(g.group);
    TrimKeeps(g.version);
    TrimKeeps(g.resource);
    PrintOf(g);
  }

  lemma {:induction false} GoodPartsParse(parts: seq<string>, gs: seq<GVR>)
    requires |parts| == |gs| && forall i :: 0 <= i < |gs| ==> ParsePart(parts[i]) == Good(gs[i])
    ensures ParseParts(parts) == (true, gs)
  {
    if gs != [] {
      GoodPartsParse(parts[1..], gs[1..]);
      assert gs == [gs[0]] + gs[1..];
    }
  }

  lemma CleanPartsParse(gs: seq<GVR>)
    requires forall i :: 0 <= i < |gs| ==> Clean(gs[i])
    ensures ParseParts(PrintedParts(gs)) == (true, gs)
  {
    forall i | 0 <= i < |gs| ensures ParsePart(PrintedParts(gs)[i]) == Good(gs[i]) { CleanPartParses(gs[i]); }
    GoodPartsParse(PrintedParts(gs), gs);
  }

  lemma CleanListRoundTrips(gs: seq<GVR>)
    requires gs != [] && forall i :: 0 <= i < |gs| ==> Clean(gs[i])
    ensures ParseParts(Split(PrintAll(gs), ',')) == (true, gs)
  {
    var parts := PrintedParts(gs);
    forall i | 0 <= i < |parts| ensures ',' !in parts[i]
    {
      CleanPartParses(gs[i]);
    }
    SplitJoin(parts, ',');
    CleanPartsParse(gs);
  }

  /**
   * Parsing takes the parts in order, fields trimmed, up to the first that has
   * not three fields, and fails exactly at such a one.
   */
  lemma {:induction false} ParsedAre(parts: seq<string>)
    ensures var (ok, gs) := ParseParts(parts);
            && (ok <==> |gs| == |parts|)
            && (forall i :: 0 <= i < |gs| ==>
                  var sub := Split(parts[i], '/');
                  |sub| == 3 && gs[i] == GVR(TrimSpace(sub[0]), TrimSpace(sub[1]), TrimSpace(sub[2])))
            && (|gs| < |parts| ==> |Split(parts[|gs|], '/')| != 3)
  {
    if parts != [] {
      ParsedAre(parts[1..]);
      var gs, rest := ParseParts(parts).1, ParseParts(parts[1..]).1;
      forall i | 0 <= i < |gs|
        ensures var sub := Split(parts[i], '/');
                |sub| == 3 && gs[i] == GVR(TrimSpace(sub[0]), TrimSpace(sub[1]), TrimSpace(sub[2]))
      {
        if i > 0 { assert gs[i] == rest[i - 1] && parts[i] == parts[1..][i - 1]; }
      }
    }
  }

  lemma SubpartClean(part: string, i: nat)
    requires ',' !in part && i < |Split(part, '/')|
    ensures CleanField(TrimSpace(Split(part, '/')[i]))
  {
    var sub := Split(part, '/')[i];
    TrimSpaceTrims(sub);
    JoinSplit(part, '/');
    if ',' in sub {
      SplitKeepsChars(part, '/', i, ',');
    }
  }

  lemma {:induction false} ParsedIsClean(parts: seq<string>, i: nat)
    requires AllFree(parts, ',') && i < |ParseParts(parts).1|
    ensures Clean(ParseParts(parts).1[i])
  {
    if i == 0 {
      SubpartClean(parts[0], 0);
      SubpartClean(parts[0], 1);
      SubpartClean(parts[0], 2);
    } else {
      ParsedIsClean(parts[1..], i - 1);
    }
  }

  /** Setting the flag to its own printout gives the list back exactly when it is not empty and every field is clean. */
  lemma RoundTripIff(gs: seq<GVR>)
    ensures ParseParts(Split(PrintAll(gs), ',')) == (true, gs) <==>
            gs != [] && forall i :: 0 <= i < |gs| ==> Clean(gs[i])
  {
    var parts := Split(PrintAll(gs), ',');
    if gs != [] && forall i :: 0 <= i < |gs| ==> Clean(gs[i]) {
      CleanListRoundTrips(gs);
    } else if ParseParts(parts) == (true, gs) {
      JoinSplit(PrintAll(gs), ',');
      forall i | 0 <= i < |gs| ensures Clean(gs[i])
      {
        ParsedIsClean(parts, i);
      }
    }
  }
}
