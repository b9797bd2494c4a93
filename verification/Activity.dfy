/**
 Reduction of an activity trail (src/activity.ts). A line's text is JSON; here it is the parsed
 step, None when it does not parse to a step, and writing a step back and parsing it gives it again.
 */
module Activity {
  import opened Wrappers

  datatype Value = Text(s: string) | Number(n: int) | Other(json: string)

  /** Every property of the step's object besides `kind` and `id` is in `fields`. */
  datatype Step = Step(kind: string, id: string, fields: map<string, Value>)

  /** `millis` is the number a raw timestamp converts to, None when that is not finite. */
  datatype Stamp = Stamp(raw: string, millis: Option<int>)

  datatype Line = Line(ts: Stamp, step: Option<Step>)

  const KINDS := ["tool", "internal", "file", "patch", "retry", "compaction", "subtask", "notification", "model"]
  const TERMINAL := ["completed", "error", "interrupted", "unknown"]

  /** parseStep: an object without a known kind or with an empty id is no step. */
  function Parse(line: Line): Option<Step> {
    if line.step.Some? && line.step.value.id != "" && line.step.value.kind in KINDS then line.step else None
  }

  // ---- the reference: group by (kind, id) and fold each group ----

  /** The kinds of step that last a while. */
  predicate Lasting(kind: string) {
    kind in ["tool", "compaction"]
  }

  predicate Terminal(status: Value) {
    status.Text? && status.s in TERMINAL
  }

  predicate Ended(step: Step) {
    Lasting(step.kind) && "status" in step.fields && Terminal(step.fields["status"])
  }

  /** A later line over an earlier one: later properties win, the time stays, an end gets its duration. */
  function Merge(prior: Line, line: Line): Line
    requires prior.step.Some? && line.step.Some?
  {
    var merged := prior.step.value.(fields := prior.step.value.fields + line.step.value.fields);
    var timed :=
      Ended(merged) && prior.ts.millis.Some? && line.ts.millis.Some? && line.ts.millis.value >= prior.ts.millis.value;
    Line(prior.ts, Some(
      if timed then merged.(fields :=
        merged.fields["durationMs" := Number(line.ts.millis.value - prior.ts.millis.value)])
      else merged))
  }

  predicate Is(line: Line, key: (string, string)) {
    Parse(line).Some? && (Parse(line).value.kind, Parse(line).value.id) == key
  }

  function Group(lines: seq<Line>, key: (string, string)): (g: seq<Line>)
    ensures forall line | line in g :: Is(line, key)
  {
    if lines == [] then []
    else
      var before := Group(lines[..|lines| - 1], key);
      if Is(lines[|lines| - 1], key) then before + [lines[|lines| - 1]] else before
  }

  /** The left fold of a non-empty group. */
  function Fold(group: seq<Line>): (r: Line)
    requires group != [] && forall line | line in group :: line.step.Some?
    ensures r.step.Some? && r.ts == group[0].ts
    ensures r.step.value.kind == group[0].step.value.kind && r.step.value.id == group[0].step.value.id
  {
    if |group| == 1 then group[0] else Merge(Fold(group[..|group| - 1]), group[|group| - 1])
  }

  /** The keys in the order in which they first appear. */
  function Keys(lines: seq<Line>): seq<(string, string)> {
    if lines == [] then []
    else
      var before, last := Keys(lines[..|lines| - 1]), Parse(lines[|lines| - 1]);
      if last.Some? && (last.value.kind, last.value.id) !in before
      then before + [(last.value.kind, last.value.id)] else before
  }

  lemma {:induction false} KeysAre(lines: seq<Line>)
    ensures forall key :: key in Keys(lines) <==> Group(lines, key) != []
    ensures forall i, j | 0 <= i < j < |Keys(lines)| :: Keys(lines)[i] != Keys(lines)[j]
    ensures forall key | key in Keys(lines) :: key.0 in KINDS
  {
    if lines != [] {
      KeysAre(lines[..|lines| - 1]);
    }
  }

  /** One line for each of the given keys. */
  function Folds(lines: seq<Line>, keys: seq<(string, string)>): seq<Line>
    requires forall key | key in keys :: Group(lines, key) != []
  {
    seq(|keys|, i requires 0 <= i < |keys| => Fold(Group(lines, keys[i])))
  }

  function Reduced(lines: seq<Line>): seq<Line> {
    KeysAre(lines);
    Folds(lines, Keys(lines))
  }

  lemma ReducedAppend(lines: seq<Line>, line: Line)
    ensures Parse(line).None? ==> Reduced(lines + [line]) == Reduced(lines)
    ensures forall key | Is(line, key) && key !in Keys(lines) ::
              Reduced(lines + [line]) == Reduced(lines) + [line]
    ensures forall i | 0 <= i < |Keys(lines)| && Is(line, Keys(lines)[i]) ::
              Reduced(lines + [line]) == Reduced(lines)[i := Merge(Reduced(lines)[i], line)]
  {
    var all := lines + [line];
    assert all[..|all| - 1] == lines;
    KeysAre(lines);
    KeysAre(all);
    forall key ensures Group(all, key) == Group(lines, key) + if Is(line, key) then [line] else [] {
    }
    if Parse(line).Some? {
      var key := (Parse(line).value.kind, Parse(line).value.id);
      if key in Keys(lines) {
        var g := Group(lines, key);
        assert (g + [line])[..|g|] == g;
      } else {
        assert Group(lines, key) == [];
      }
    }
  }

  // ---- the one-pass form of the source ----

  function IndexKey(step: Step): string {
    step.kind + "\0" + step.id
  }

  /** The index string of a step determines its kind and id: no kind contains the separator. */
  lemma IndexKeyInjective(a: Step, b: Step)
    requires a.kind in KINDS && b.kind in KINDS && IndexKey(a) == IndexKey(b)
    ensures a.kind == b.kind && a.id == b.id
  {
    assert forall kind | kind in KINDS :: '\0' !in kind;
    JoinInjective(a.kind, a.id, b.kind, b.id, '\0');
  }

  function PairKey(key: (string, string)): string {
    IndexKey(Step(key.0, key.1, map[]))
  }

  /** `positions` indexes exactly the keys seen so far. */
  ghost predicate Indexed(positions: map<string, nat>, keys: seq<(string, string)>) {
    && (forall i | 0 <= i < |keys| :: PairKey(keys[i]) in positions && positions[PairKey(keys[i])] == i)
    && (forall k | k in positions :: positions[k] < |keys| && PairKey(keys[positions[k]]) == k)
  }

  lemma IndexedLookup(positions: map<string, nat>, lines: seq<Line>, step: Step)
    requires Indexed(positions, Keys(lines)) && step.kind in KINDS
    ensures IndexKey(step) in positions ==>
              positions[IndexKey(step)] < |Keys(lines)| &&
              Keys(lines)[positions[IndexKey(step)]] == (step.kind, step.id)
    ensures IndexKey(step) !in positions ==> (step.kind, step.id) !in Keys(lines)
  {
    KeysAre(lines);
    if IndexKey(step) in positions {
      var key := Keys(lines)[positions[IndexKey(step)]];
      assert key in Keys(lines);
      IndexKeyInjective(Step(key.0, key.1, map[]), step);
    } else {
      forall i | 0 <= i < |Keys(lines)| ensures Keys(lines)[i] != (step.kind, step.id) {
        assert PairKey(Keys(lines)[i]) in positions;
      }
    }
  }

  method ReduceActivityLines(lines: seq<Line>) returns (reduced: seq<Line>)
    ensures reduced == Reduced(lines)
  {
    reduced := [];
    var positions: map<string, nat> := map[];
    for n := 0 to |lines|
      invariant reduced == Reduced(lines[..n])
      invariant Indexed(positions, Keys(lines[..n]))
    {
      var line := lines[n];
      assert lines[..n + 1][..n] == lines[..n];
      var step := Parse(line);
      if step.None? {
        ReducedAppend(lines[..n], line);
        assert lines[..n + 1] == lines[..n] + [line];
        continue;
      }
      var key := IndexKey(step.value);
      ghost var pair := (step.value.kind, step.value.id);
      ReducedAppend(lines[..n], line);
      IndexedLookup(positions, lines[..n], step.value);
      assert lines[..n + 1] == lines[..n] + [line] && Is(line, pair);
      if key !in positions {
        positions := positions[key := |reduced|];
        reduced := reduced + [line];
      } else {
        var position := positions[key];
        reduced := reduced[position := Merge(reduced[position], line)];
      }
    }
    assert lines[..|lines|] == lines;
  }

  // ---- what a merged line says ----

  /**
   Nothing is lost and nothing invented: the reduced trail has exactly one line for each kind and id among the
   steps of a known kind with an id, with the time of their first line, and no other line.
   */
  lemma ReducedHasEveryStep(lines: seq<Line>, kind: string, id: string)
    ensures (exists n :: 0 <= n < |lines| && StepOf(lines[n], kind, id)) <==>
            (exists i :: 0 <= i < |Reduced(lines)| && StepOf(Reduced(lines)[i], kind, id))
    ensures forall i, j | 0 <= i < j < |Reduced(lines)| ::
              !(StepOf(Reduced(lines)[i], kind, id) && StepOf(Reduced(lines)[j], kind, id))
    ensures forall i | 0 <= i < |Reduced(lines)| :: Reduced(lines)[i].step.Some?
  {
    KeysAre(lines);
    GroupIs(lines, kind, id);
    var keys := Keys(lines);
    hide Keys, Group, Fold;
    forall i | 0 <= i < |keys|
      ensures Reduced(lines)[i].step.Some?
      ensures StepOf(Reduced(lines)[i], kind, id) <==> keys[i] == (kind, id)
    {
      var g := Group(lines, keys[i]);
      assert keys[i] in keys && g[0] in g && Is(g[0], keys[i]);
    }
  }

  /** A step of the kind and id, of a kind that is known and an id that is not empty. */
  predicate StepOf(line: Line, kind: string, id: string) {
    && line.step.Some? && line.step.value.kind == kind && line.step.value.id == id && id != ""
    && kind in {"tool", "internal", "file", "patch", "retry", "compaction", "subtask", "notification", "model"}
  }

  lemma {:induction false} GroupIs(lines: seq<Line>, kind: string, id: string)
    ensures Group(lines, (kind, id)) != [] <==> exists n :: 0 <= n < |lines| && StepOf(lines[n], kind, id)
  {
    if lines != [] {
      var before, last := lines[..|lines| - 1], lines[|lines| - 1];
      GroupIs(before, kind, id);
      assert Is(last, (kind, id)) <==> StepOf(last, kind, id);
      assert forall n | 0 <= n < |before| :: before[n] == lines[n];
    }
  }

  /** The last line of the group that carries a property, if any does. */
  function LatestWith(group: seq<Line>, name: string): Option<Value>
    requires forall line | line in group :: line.step.Some?
  {
    if group == [] then None
    else
      var fields := group[|group| - 1].step.value.fields;
      if name in fields then Some(fields[name]) else LatestWith(group[..|group| - 1], name)
  }

  /**
   Every property of the merged step but its duration is the one of the latest line that carries it. A
   tool or compaction whose latest status is terminal gets the time from its first line to its last.
   */
  lemma {:induction false} FoldKeepsLatest(group: seq<Line>, name: string)
    requires group != [] && (forall line | line in group :: line.step.Some?) && name != "durationMs"
    ensures var fields := Fold(group).step.value.fields;
            LatestWith(group, name) == if name in fields then Some(fields[name]) else None
  {
    assert LatestWith([], name) == None;
    assert group[..|group|] == group;
    if |group| > 1 {
      FoldKeepsLatest(group[..|group| - 1], name);
    }
  }

  lemma EndGetsDuration(group: seq<Line>, start: int, end: int)
    requires |group| > 1 && forall line | line in group :: line.step.Some?
    requires group[0].ts.millis == Some(start) && group[|group| - 1].ts.millis == Some(end)
    requires Lasting(group[0].step.value.kind)
    requires LatestWith(group, "status").Some? && Terminal(LatestWith(group, "status").value)
    requires start <= end
    ensures "durationMs" in Fold(group).step.value.fields
    ensures Fold(group).step.value.fields["durationMs"] == Number(end - start)
  {
    hide *;
    StatusKept(group);
    FoldLast(group);
    MergeEnds(Fold(group[..|group| - 1]), group[|group| - 1]);
  }

  lemma StatusKept(group: seq<Line>)
    requires group != [] && forall line | line in group :: line.step.Some?
    requires LatestWith(group, "status").Some? && Terminal(LatestWith(group, "status").value)
    ensures Lasting(group[0].step.value.kind) ==> Ended(Fold(group).step.value)
  {
    hide LatestWith, Fold, Lasting, Terminal;
    FoldKeepsLatest(group, "status");
  }

  lemma FoldLast(group: seq<Line>)
    requires |group| > 1 && forall line | line in group :: line.step.Some?
    ensures Fold(group) == Merge(Fold(group[..|group| - 1]), group[|group| - 1])
    ensures Fold(group[..|group| - 1]).ts == group[0].ts
  {
  }

  lemma MergeEnds(prior: Line, line: Line)
    requires prior.step.Some? && line.step.Some? && Ended(Merge(prior, line).step.value)
    requires prior.ts.millis.Some? && line.ts.millis.Some? && line.ts.millis.value >= prior.ts.millis.value
    ensures var fields := Merge(prior, line).step.value.fields;
            "durationMs" in fields && fields["durationMs"] == Number(line.ts.millis.value - prior.ts.millis.value)
  {
  }

  /**
   The duration a group shows: each line whose step has ended by then, and whose times are known and in
   order, sets it to the time since the first line; any other line that carries one sets it to that.
   */
  function Duration(group: seq<Line>): Option<Value>
    requires group != [] && forall line | line in group :: line.step.Some?
  {
    var last := group[|group| - 1];
    var fields, status := last.step.value.fields, LatestWith(group, "status");
    if |group| > 1 && group[0].step.value.kind in {"tool", "compaction"} && status.Some? &&
       status.value in {Text("completed"), Text("error"), Text("interrupted"), Text("unknown")} &&
       group[0].ts.millis.Some? && last.ts.millis.Some? && group[0].ts.millis.value <= last.ts.millis.value
    then Some(Number(last.ts.millis.value - group[0].ts.millis.value))
    else if "durationMs" in fields then Some(fields["durationMs"])
    else if |group| == 1 then None
    else Duration(group[..|group| - 1])
  }

  lemma {:induction false} FoldDuration(group: seq<Line>)
    requires group != [] && forall line | line in group :: line.step.Some?
    ensures var fields := Fold(group).step.value.fields;
            Duration(group) == if "durationMs" in fields then Some(fields["durationMs"]) else None
  {
    if |group| > 1 {
      FoldDuration(group[..|group| - 1]);
      FoldKeepsLatest(group, "status");
      FoldLast(group);
      MergedStatus(Fold(group[..|group| - 1]), group[|group| - 1]);
      hide Fold, LatestWith, Merge;
    }
  }

  lemma MergedStatus(prior: Line, line: Line)
    requires prior.step.Some? && line.step.Some?
    ensures var before, after := prior.step.value, Merge(prior, line).step.value;
            var timed := Ended(after) && prior.ts.millis.Some? && line.ts.millis.Some? &&
                         line.ts.millis.value >= prior.ts.millis.value;
            && after.kind == before.kind
            && ("durationMs" in after.fields <==>
                  timed || "durationMs" in line.step.value.fields || "durationMs" in before.fields)
            && ("durationMs" in after.fields ==>
                  after.fields["durationMs"] ==
                  if timed then Number(line.ts.millis.value - prior.ts.millis.value)
                  else if "durationMs" in line.step.value.fields then line.step.value.fields["durationMs"]
                  else before.fields["durationMs"])
  {
  }

  // ---- reduction is incremental ----

  lemma {:induction false} GroupConcat(xs: seq<Line>, ys: seq<Line>, key: (string, string))
    ensures Group(xs + ys, key) == Group(xs, key) + Group(ys, key)
  {
    if ys == [] {
      assert xs + ys == xs;
    } else {
      assert (xs + ys)[..|xs + ys| - 1] == xs + ys[..|ys| - 1];
      GroupConcat(xs, ys[..|ys| - 1], key);
    }
  }

  lemma {:induction false} FoldConcat(g: seq<Line>, h: seq<Line>)
    requires g != [] && forall line | line in g + h :: line.step.Some?
    ensures Fold(g + h) == Fold([Fold(g)] + h)
  {
    if h == [] {
      assert g + h == g && [Fold(g)] + h == [Fold(g)];
    } else {
      FoldConcat(g, h[..|h| - 1]);
      assert (g + h)[..|g + h| - 1] == g + h[..|h| - 1];
      assert ([Fold(g)] + h)[..|h|] == [Fold(g)] + h[..|h| - 1];
    }
  }

  /** The keys of a reduced trail are the keys of the trail, and each has one line: its fold. */
  lemma {:induction false} ReducedGroups(keys: seq<(string, string)>, lines: seq<Line>)
    requires forall key | key in keys :: Group(lines, key) != []
    requires forall i, j | 0 <= i < j < |keys| :: keys[i] != keys[j]
    ensures Keys(Folds(lines, keys)) == keys
    ensures forall key :: Group(Folds(lines, keys), key) == if key in keys then [Fold(Group(lines, key))] else []
  {
    hide Keys, Group, Fold, Folds, Is;
    if keys == [] {
      NoFolds(lines);
    } else {
      var last, before := keys[|keys| - 1], keys[..|keys| - 1];
      ReducedGroups(before, lines);
      assert keys == before + [last];
      assert Is(Group(lines, last)[0], last);
      FoldsAppend(before, last, lines);
    }
  }

  lemma NoFolds(lines: seq<Line>)
    ensures Keys(Folds(lines, [])) == [] && forall key :: Group(Folds(lines, []), key) == []
  {
  }

  lemma FoldsAppend(keys: seq<(string, string)>, key: (string, string), lines: seq<Line>)
    requires key !in keys && Group(lines, key) != [] && Is(Group(lines, key)[0], key)
    requires forall k | k in keys :: Group(lines, k) != []
    requires Keys(Folds(lines, keys)) == keys
    requires forall k :: Group(Folds(lines, keys), k) == if k in keys then [Fold(Group(lines, k))] else []
    ensures Keys(Folds(lines, keys + [key])) == keys + [key]
    ensures forall k :: Group(Folds(lines, keys + [key]), k) ==
                        if k in keys + [key] then [Fold(Group(lines, k))] else []
  {
    var folds, line := Folds(lines, keys), Fold(Group(lines, key));
    FoldsSnoc(lines, keys, key);
    assert Is(line, key);
    hide Folds, Fold, Group, Keys, Is;
    GroupAppends(folds, line, key);
  }

  lemma FoldsSnoc(lines: seq<Line>, keys: seq<(string, string)>, key: (string, string))
    requires Group(lines, key) != [] && forall k | k in keys :: Group(lines, k) != []
    ensures Folds(lines, keys + [key]) == Folds(lines, keys) + [Fold(Group(lines, key))]
  {
    hide Group, Fold;
  }

  /** A line of its own key joins the group of that key, and no other. */
  lemma GroupAppends(lines: seq<Line>, line: Line, key: (string, string))
    requires Is(line, key)
    ensures forall k :: Group(lines + [line], k) == Group(lines, k) + if k == key then [line] else []
    ensures Keys(lines + [line]) == if key in Keys(lines) then Keys(lines) else Keys(lines) + [key]
  {
    assert (lines + [line])[..|lines + [line]| - 1] == lines;
    assert forall k :: Is(line, k) <==> k == key;
  }

  lemma {:induction false} KeysConcat(xs: seq<Line>, ys: seq<Line>, zs: seq<Line>)
    requires Keys(xs) == Keys(zs)
    ensures Keys(xs + ys) == Keys(zs + ys)
  {
    if ys == [] {
      assert xs + ys == xs && zs + ys == zs;
    } else {
      assert (xs + ys)[..|xs + ys| - 1] == xs + ys[..|ys| - 1];
      assert (zs + ys)[..|zs + ys| - 1] == zs + ys[..|ys| - 1];
      KeysConcat(xs, ys[..|ys| - 1], zs);
    }
  }

  lemma ReducedOnce(xs: seq<Line>)
    ensures Keys(Reduced(xs)) == Keys(xs)
    ensures forall key :: key in Keys(xs) <==> Group(xs, key) != []
    ensures forall key :: Group(Reduced(xs), key) == if Group(xs, key) != [] then [Fold(Group(xs, key))] else []
  {
    hide Keys, Group, Fold;
    KeysAre(xs);
    ReducedGroups(Keys(xs), xs);
  }

  lemma FoldInstalments(xs: seq<Line>, ys: seq<Line>, key: (string, string))
    requires key in Keys(xs + ys)
    ensures Group(xs + ys, key) != [] && Group(Reduced(xs) + ys, key) != []
    ensures Fold(Group(xs + ys, key)) == Fold(Group(Reduced(xs) + ys, key))
  {
    hide Keys, Group, Fold, Reduced;
    KeysAre(xs + ys);
    ReducedOnce(xs);
    GroupConcat(xs, ys, key);
    GroupConcat(Reduced(xs), ys, key);
    if key in Keys(xs) {
      FoldConcat(Group(xs, key), Group(ys, key));
    }
  }

  /** A trail may be reduced in instalments. */
  lemma ReduceIsIncremental(xs: seq<Line>, ys: seq<Line>)
    ensures Reduced(xs + ys) == Reduced(Reduced(xs) + ys)
  {
    hide Keys, Group, Fold;
    ReducedOnce(xs);
    KeysConcat(xs, ys, Reduced(xs));
    KeysAre(xs + ys);
    KeysAre(Reduced(xs) + ys);
    forall i | 0 <= i < |Keys(xs + ys)| ensures Reduced(xs + ys)[i] == Reduced(Reduced(xs) + ys)[i] {
      FoldInstalments(xs, ys, Keys(xs + ys)[i]);
    }
  }

  lemma ReduceIsIdempotent(xs: seq<Line>)
    ensures Reduced(Reduced(xs)) == Reduced(xs)
  {
    ReduceIsIncremental(xs, []);
    assert xs + [] == xs && Reduced(xs) + [] == Reduced(xs);
  }
}
