/** The ovn-bridge-mappings text of Open vSwitch (updateOvnBridgeMapping in internal/pkg/ovn/common.go). */
module BridgeMapping {
  import opened Wrappers
  import opened Strings

  // What the text stands for: network name to bridge name.
  type Mapping = map<string, string>

  // A label without a colon makes the source index past its pieces.
  datatype ParseError = MissingColon

  /** One "key:value" label of the text; further colons are cut off. */
  function ParseLabel(l: string): Result<(string, string), ParseError> {
    var pieces := Split(l, ':');
    if |pieces| < 2 then Failure(MissingColon) else Success((TrimSpace(pieces[0]), TrimSpace(pieces[1])))
  }

  /** The labels written into a map from left to right. */
  function ParseLabels(labels: seq<string>, m: Mapping): Result<Mapping, ParseError>
    decreases |labels|
  {
    if labels == [] then Success(m)
    else
      var kv :- ParseLabel(labels[0]);
      ParseLabels(labels[1..], m[kv.0 := kv.1])
  }

  function Parse(text: string): Result<Mapping, ParseError> {
    if text == "" then Success(map[]) else ParseLabels(Split(text, ','), map[])
  }

  /** The text printed for the keys in the given order, with its trailing comma. */
  function PrintEntries(order: seq<string>, m: Mapping): string
    requires forall i :: 0 <= i < |order| ==> order[i] in m
  {
    if order == [] then ""
    else PrintEntries(order[..|order| - 1], m) + Entry(order[|order| - 1], m) + ","
  }

  function Entry(k: string, m: Mapping): string
    requires k in m
  {
    k + ":" + m[k]
  }

  /** The order of a range over the map: every key once. */
  ghost predicate Enumerates(order: seq<string>, m: Mapping) {
    && (forall i :: 0 <= i < |order| ==> order[i] in m)
    && (forall k :: k in m ==> k in order)
    && (forall i, j :: 0 <= i < j < |order| ==> order[i] != order[j])
  }

  function Print(order: seq<string>, m: Mapping): string
    requires order != [] && forall i :: 0 <= i < |order| ==> order[i] in m
  {
    PrintEntries(order, m)[..|PrintEntries(order, m)| - 1]
  }

  /** Texts that survive printing and parsing: no separators, no blank at either end. */
  predicate CleanText(s: string) {
    ',' !in s && ':' !in s && Trimmed(s)
  }

  ghost predicate Clean(m: Mapping) {
    forall k :: k in m ==> CleanText(k) && CleanText(m[k])
  }

  // ----- The printer and the parser undo each other -----

  function Labels(order: seq<string>, m: Mapping): seq<string>
    requires forall i :: 0 <= i < |order| ==> order[i] in m
  {
    seq(|order|, i requires 0 <= i < |order| => Entry(order[i], m))
  }

  lemma {:induction false} JoinLast(pieces: seq<string>, last: string)
    requires pieces != []
    ensures Join(pieces + [last], ',') == Join(pieces, ',') + "," + last
  {
    var all := pieces + [last];
    if |pieces| == 1 {
      assert all[1..] == [last];
    } else {
      assert all[1..] == pieces[1..] + [last];
      JoinLast(pieces[1..], last);
      assert pieces[0] + [','] + (Join(pieces[1..], ',') + "," + last)
          == pieces[0] + [','] + Join(pieces[1..], ',') + "," + last;
    }
  }

  lemma {:induction false} PrintIsJoin(order: seq<string>, m: Mapping)
    requires order != [] && forall i :: 0 <= i < |order| ==> order[i] in m
    ensures PrintEntries(order, m) == Join(Labels(order, m), ',') + ","
  {
    var n := |order| - 1;
    if n > 0 {
      PrintIsJoin(order[..n], m);
      assert Labels(order, m) == Labels(order[..n], m) + [Entry(order[n], m)];
      JoinLast(Labels(order[..n], m), Entry(order[n], m));
    }
  }

  lemma ParseEntry(k: string, m: Mapping)
    requires k in m && CleanText(k) && CleanText(m[k])
    ensures ParseLabel(Entry(k, m)) == Success((k, m[k]))
  {
    SplitHead(k, m[k], ':');
    SplitWithoutSeparator(m[k], ':');
  }

  function Restrict(m: Mapping, order: seq<string>): Mapping
    requires forall i :: 0 <= i < |order| ==> order[i] in m
  {
    map k | k in order :: m[k]
  }

  lemma {:induction false} ParseInOrder(order: seq<string>, m: Mapping, acc: Mapping)
    requires Clean(m) && forall i :: 0 <= i < |order| ==> order[i] in m
    ensures ParseLabels(Labels(order, m), acc) == Success(acc + Restrict(m, order))
    decreases |order|
  {
    if order == [] {
      assert acc + Restrict(m, order) == acc;
    } else {
      var k := order[0];
      ParseEntry(k, m);
      assert Labels(order, m)[1..] == Labels(order[1..], m);
      ParseInOrder(order[1..], m, acc[k := m[k]]);
      RestrictStep(order, m, acc);
    }
  }

  lemma RestrictStep(order: seq<string>, m: Mapping, acc: Mapping)
    requires order != [] && forall i :: 0 <= i < |order| ==> order[i] in m
    ensures acc[order[0] := m[order[0]]] + Restrict(m, order[1..]) == acc + Restrict(m, order)
  {
    assert forall x :: x in order <==> x == order[0] || x in order[1..];
  }

  lemma CleanRoundTrip(m: Mapping, order: seq<string>)
    requires Clean(m) && m != map[] && Enumerates(order, m) && order != []
    ensures Parse(Print(order, m)) == Success(m)
  {
    PrintIsJoin(order, m);
    var labels := Labels(order, m);
    assert Print(order, m) == Join(labels, ',');
    forall i | 0 <= i < |labels| ensures ',' !in labels[i] {
      assert labels[i] == Entry(order[i], m);
    }
    SplitOfJoin(labels, ',');
    ParseInOrder(order, m, map[]);
    assert map[] + Restrict(m, order) == m;
  }

  lemma {:induction false} ParseLabelsClean(labels: seq<string>, m: Mapping)
    requires Clean(m) && forall i :: 0 <= i < |labels| ==> ',' !in labels[i]
    ensures var r := ParseLabels(labels, m); r.Success? ==> Clean(r.value)
    decreases |labels|
  {
    if labels != [] && ParseLabel(labels[0]).Success? {
      var kv := ParseLabel(labels[0]).value;
      LabelClean(labels[0]);
      ParseLabelsClean(labels[1..], m[kv.0 := kv.1]);
    }
  }

  lemma LabelClean(l: string)
    requires ',' !in l && ParseLabel(l).Success?
    ensures CleanText(ParseLabel(l).value.0) && CleanText(ParseLabel(l).value.1)
  {
    SplitSubset(l, ':');
  }

  lemma {:induction false} SplitSubset(s: string, sep: char)
    ensures forall i, c :: 0 <= i < |Split(s, sep)| && c in Split(s, sep)[i] ==> c in s
  {
    if s != [] {
      SplitSubset(s[1..], sep);
      var rest := Split(s[1..], sep);
      forall i, c | 0 <= i < |Split(s, sep)| && c in Split(s, sep)[i]
        ensures c in s
      {
        if s[0] == sep {
          assert i > 0 && Split(s, sep)[i] == rest[i - 1];
          assert c in s[1..];
        } else if i > 0 {
          assert Split(s, sep)[i] == rest[i];
          assert c in s[1..];
        } else if c != s[0] {
          assert c in rest[0];
          assert c in s[1..];
        }
      }
    }
  }

  /** Any text that can be read at all stands for a clean map. */
  lemma ReadableIsClean(text: string)
    ensures Parse(text).Success? ==> Clean(Parse(text).value)
  {
    if text != "" {
      ParseLabelsClean(Split(text, ','), map[]);
    }
  }

  /** Whatever the iteration order, the printed text of a non-empty map parses back to that
      map exactly when its keys and values are clean. */
  lemma RoundTrip(m: Mapping, order: seq<string>)
    requires m != map[] && Enumerates(order, m)
    ensures order != []
    ensures Parse(Print(order, m)) == Success(m) <==> Clean(m)
  {
    var some :| some in m;
    assert some in order;
    ReadableIsClean(Print(order, m));
    if Clean(m) {
      CleanRoundTrip(m, order);
    }
  }

  // ----- updateOvnBridgeMapping -----

  datatype UpdateResult = Updated | CommandFailed | InvalidAction | IndexPanic

  /** The stored text; an absent key reads as nothing. */
  function Text(stored: Option<string>): string {
    match stored case None => "" case Some(t) => t
  }

  function NewMapping(m: Mapping, br: string, nw: string, action: string): Mapping {
    if action == "add" then m[nw := br] else m - {nw}
  }

  /** The stored text stands for m: absent when a delete emptied it, else printed in some order. */
  ghost predicate Stores(after: Option<string>, m: Mapping) {
    if m == map[] then after.None?
    else exists order :: PrintedAs(after, order, m)
  }

  ghost predicate PrintedAs(after: Option<string>, order: seq<string>, m: Mapping) {
    order != [] && Enumerates(order, m) && after == Some(Print(order, m))
  }

  ghost predicate UpdateEffect(before: Option<string>, after: Option<string>, br: string, nw: string, action: string,
                               getFails: bool, setFails: bool, r: UpdateResult)
  {
    if getFails then r == CommandFailed && after == before
    else match Parse(Text(before))
      case Failure(_) => r == IndexPanic && after == before
      case Success(m) =>
        if action != "add" && action != "delete" then r == InvalidAction && after == before
        else if setFails then r == CommandFailed && after == before
        else r == Updated && Stores(after, NewMapping(m, br, nw, action))
  }

  method ParseMapping(text: string) returns (r: Result<Mapping, ParseError>)
    ensures r == Parse(text)
  {
    var mm: Mapping := map[];
    if |text| > 0 {
      var am := Split(text, ',');
      var i := 0;
      while i < |am|
        invariant 0 <= i <= |am|
        invariant Parse(text) == ParseLabels(am[i..], mm)
      {
        var kv := ParseLabel(am[i]);
        assert am[i..][1..] == am[i + 1..];
        if kv.Failure? {
          return Failure(MissingColon);
        }
        mm := mm[kv.value.0 := kv.value.1];
        i := i + 1;
      }
    }
    return Success(mm);
  }

  /** The keys ranged over so far, in order, and those still to come. */
  ghost predicate Ranged(order: seq<string>, rest: set<string>, m: Mapping) {
    && rest <= m.Keys
    && (forall i :: 0 <= i < |order| ==> order[i] in m && order[i] !in rest)
    && (forall k :: k in m && k !in rest ==> k in order)
    && (forall i, j :: 0 <= i < j < |order| ==> order[i] != order[j])
  }

  lemma RangedStep(order: seq<string>, rest: set<string>, m: Mapping, k: string)
    requires Ranged(order, rest, m) && k in rest
    ensures Ranged(order + [k], rest - {k}, m)
    ensures PrintEntries(order + [k], m) == PrintEntries(order, m) + Entry(k, m) + ","
  {
    assert (order + [k])[..|order|] == order;
  }

  lemma RangedAll(order: seq<string>, m: Mapping)
    requires Ranged(order, {}, m) && m != map[]
    ensures order != [] && Enumerates(order, m)
  {
    var some :| some in m;
    assert some in order;
  }

  /** The range over the map, in whatever order it comes, and the cut of the last comma. */
  method PrintMapping(mm: Mapping) returns (text: string)
    requires mm != map[]
    ensures exists order :: PrintedAs(Some(text), order, mm)
  {
    text := "";
    ghost var order: seq<string> := [];
    var rest := mm.Keys;
    while rest != {}
      invariant Ranged(order, rest, mm)
      invariant text == PrintEntries(order, mm)
      decreases rest
    {
      var k :| k in rest;
      RangedStep(order, rest, mm, k);
      text := text + (k + ":" + mm[k]) + ",";
      order := order + [k];
      rest := rest - {k};
    }
    RangedAll(order, mm);
    text := text[..|text| - 1];
    assert PrintedAs(Some(text), order, mm);
  }

  class OpenVSwitch {
    var mappings: Option<string>

    method UpdateOvnBridgeMapping(br: string, nw: string, action: string, getFails: bool, setFails: bool)
      returns (r: UpdateResult)
      modifies this
      ensures UpdateEffect(old(mappings), mappings, br, nw, action, getFails, setFails, r)
    {
      if getFails {
        return CommandFailed;
      }
      var parsed := ParseMapping(Text(mappings));
      if parsed.Failure? {
        return IndexPanic;
      }
      var mm := parsed.value;
      if action == "add" {
        mm := mm[nw := br];
      } else if action == "delete" {
        mm := mm - {nw};
        if mm.Keys == {} {
          if setFails {
            return CommandFailed;
          }
          mappings := None;
          return Updated;
        }
      } else {
        return InvalidAction;
      }
      assert nw in mm || exists k :: k in mm;
      var text := PrintMapping(mm);
      if setFails {
        return CommandFailed;
      }
      mappings := Some(text);
      return Updated;
    }
  }

  // ----- Texts written by others -----

  predicate Blank(s: string) {
    forall c :: c in s ==> IsSpace(c)
  }

  /** A label reads as what stands before its first colon and between that and the next, without the
      blanks around them. */
  lemma ReadLabel(l: string, a: string, k: string, b: string, c: string, v: string, d: string, rest: string)
    requires l == (a + k + b) + [':'] + (c + v + d) + rest && (rest == "" || rest[0] == ':')
    requires ':' !in a + k + b && ':' !in c + v + d
    requires Blank(a) && Blank(b) && Blank(c) && Blank(d) && Trimmed(k) && Trimmed(v)
    ensures ParseLabel(l) == Success((k, v))
  {
    var key, value := a + k + b, c + v + d;
    assert l == key + [':'] + (value + rest);
    SplitHead(key, value + rest, ':');
    if rest == "" {
      assert value + rest == value;
      SplitWithoutSeparator(value, ':');
    } else {
      assert value + rest == value + [':'] + rest[1..];
      SplitHead(value, rest[1..], ':');
    }
    TrimBlanks(a, k, b);
    TrimBlanks(c, v, d);
  }

  lemma LabelWithoutColon(l: string)
    requires ':' !in l
    ensures ParseLabel(l) == Failure(MissingColon)
  {
    SplitWithoutSeparator(l, ':');
  }

  /** The text is read label by label, a later one for the same network winning. */
  lemma {:induction false} ReadLabels(labels: seq<string>, l: string, m: Mapping)
    ensures ParseLabels(labels + [l], m) ==
      match ParseLabels(labels, m)
      case Failure(e) => Failure(e)
      case Success(before) => match ParseLabel(l) case Failure(e) => Failure(e) case Success(kv) => Success(before[kv.0 := kv.1])
    decreases |labels|
  {
    if labels == [] {
      assert (labels + [l])[1..] == [];
    } else {
      assert (labels + [l])[1..] == labels[1..] + [l];
      var kv := ParseLabel(labels[0]);
      if kv.Success? {
        ReadLabels(labels[1..], l, m[kv.value.0 := kv.value.1]);
      }
    }
  }

  // ----- Runs on the stored text are runs on a plain map -----

  datatype Op = Op(br: string, nw: string, action: string, getFails: bool, setFails: bool)

  predicate Effective(op: Op) {
    !op.getFails && !op.setFails && (op.action == "add" || op.action == "delete")
  }

  function MapRun(m: Mapping, ops: seq<Op>): Mapping {
    if ops == [] then m
    else
      var n := |ops| - 1;
      var before := MapRun(m, ops[..n]);
      if Effective(ops[n]) then NewMapping(before, ops[n].br, ops[n].nw, ops[n].action) else before
  }

  /** The stored texts along a run, each step in any iteration order the map range may take. */
  ghost predicate TextRun(trace: seq<Option<string>>, ops: seq<Op>) {
    && |trace| == |ops| + 1
    && (forall i :: 0 <= i < |ops| ==> StepTaken(trace[i], trace[i + 1], ops[i]))
  }

  ghost predicate StepTaken(before: Option<string>, after: Option<string>, op: Op) {
    exists r :: UpdateEffect(before, after, op.br, op.nw, op.action, op.getFails, op.setFails, r)
  }

  lemma StoredReadsBack(after: Option<string>, m: Mapping)
    requires Clean(m) && Stores(after, m)
    ensures Parse(Text(after)) == Success(m)
    ensures after.None? <==> m == map[]
  {
    if m != map[] {
      var order :| PrintedAs(after, order, m);
      RoundTrip(m, order);
    }
  }

  lemma StepReadsBack(before: Option<string>, after: Option<string>, op: Op, m: Mapping)
    requires Parse(Text(before)) == Success(m) && StepTaken(before, after, op)
    requires op.action == "add" ==> CleanText(op.nw) && CleanText(op.br)
    ensures Parse(Text(after)) == Success(if Effective(op) then NewMapping(m, op.br, op.nw, op.action) else m)
    ensures Effective(op) ==> (after.None? <==> NewMapping(m, op.br, op.nw, op.action) == map[])
  {
    ReadableIsClean(Text(before));
    if Effective(op) {
      StoredReadsBack(after, NewMapping(m, op.br, op.nw, op.action));
    }
  }

  /** From any readable text, any run of adds and deletes of clean names, with commands
      failing anywhere, leaves a text that reads as the same run on a plain map; and after an
      update that took effect the key is absent exactly when the map is empty. */
  lemma {:induction false} RunRefines(trace: seq<Option<string>>, ops: seq<Op>, m: Mapping)
    requires TextRun(trace, ops) && Parse(Text(trace[0])) == Success(m)
    requires forall i :: 0 <= i < |ops| && ops[i].action == "add" ==> CleanText(ops[i].nw) && CleanText(ops[i].br)
    ensures Parse(Text(trace[|ops|])) == Success(MapRun(m, ops))
    ensures ops != [] && Effective(ops[|ops| - 1]) ==> (trace[|ops|].None? <==> MapRun(m, ops) == map[])
    decreases |ops|
  {
    if ops != [] {
      var n := |ops| - 1;
      RunRefines(trace[..n + 1], ops[..n], m);
      assert StepTaken(trace[n], trace[n + 1], ops[n]);
      StepReadsBack(trace[n], trace[n + 1], ops[n], MapRun(m, ops[..n]));
    }
  }
}
