/**
 The default notification text built from an alertmanager webhook payload
 (`newAlertText` in `cmd/sachet/handlers.go`), and the inline variant the
 registered `/alert` handler in `cmd/sachet/main.go` uses.
 */
module AlertText {
  import opened Text
  import opened GoMaps
  import Sorting

  /** One alert of the payload: its status and its label map. */
  datatype Alert = Alert(status: string, labels: map<string, string>)

  /**
   The payload fields the renderer reads. `commonLabelValues` is what the
   alertmanager `KV.Values` helper lists for the common labels.
   */
  datatype Data = Data(receiver: string, status: string, alerts: seq<Alert>, commonLabelValues: seq<string>)

  /** The order in which Go happens to range over the two-entry section map. */
  datatype SectionOrder = FiringFirst | ResolvedFirst

  /** A Go map read with `m[k]`: an absent key reads as `""`. */
  function Label(labels: map<string, string>, k: string): (v: string)
    ensures k in labels ==> v == labels[k]
    ensures k !in labels ==> v == ""
  {
    if k in labels then labels[k] else ""
  }

  /**
   The alerts with the given status, in payload order: what alertmanager's
   `Alerts.Firing()` and `Alerts.Resolved()` compute.
   */
  function WithStatus(alerts: seq<Alert>, status: string): (r: seq<Alert>)
    ensures |r| <= |alerts|
    ensures forall i :: 0 <= i < |r| ==> r[i].status == status
    ensures forall a :: a in r <==> a in alerts && a.status == status
  {
    if |alerts| == 0 then []
    else
      var r := (if alerts[0].status == status then [alerts[0]] else []) + WithStatus(alerts[1..], status);
      assert forall a :: a in alerts <==> a == alerts[0] || a in alerts[1..];
      r
  }

  /** The positions from `from` on whose alert has the given status, in increasing order. */
  function Positions(alerts: seq<Alert>, status: string, from: nat): seq<nat>
    decreases |alerts| - from
  {
    if from >= |alerts| then []
    else (if alerts[from].status == status then [from] else []) + Positions(alerts, status, from + 1)
  }

  /**
   `idx` picks out of `alerts` exactly the alerts with the given status at
   or after `from`, in increasing order, and `r` lists the alerts it picks.
   */
  predicate Selects(alerts: seq<Alert>, status: string, from: nat, idx: seq<nat>, r: seq<Alert>)
  {
    && |idx| == |r|
    && (forall k :: 0 <= k < |idx| ==> from <= idx[k] < |alerts| && r[k] == alerts[idx[k]])
    && (forall k, l :: 0 <= k < l < |idx| ==> idx[k] < idx[l])
    && (forall i :: from <= i < |alerts| ==> (alerts[i].status == status <==> i in idx))
  }

  /**
   The group is the in-order subsequence of the payload's alerts with that
   status: it is what selecting those positions, in increasing order, gives.
   */
  lemma {:induction false} WithStatusSelects(alerts: seq<Alert>, status: string, from: nat)
    requires from <= |alerts|
    ensures Selects(alerts, status, from, Positions(alerts, status, from), WithStatus(alerts[from..], status))
    decreases |alerts| - from
  {
    if from < |alerts| {
      WithStatusSelects(alerts, status, from + 1);
      assert alerts[from..][1..] == alerts[from + 1..];
      SelectsStep(alerts, status, from, Positions(alerts, status, from + 1), WithStatus(alerts[from + 1..], status));
    }
  }

  /** One more position in front: it is picked exactly when its alert has the status. */
  lemma SelectsStep(alerts: seq<Alert>, status: string, from: nat, idx: seq<nat>, r: seq<Alert>)
    requires from < |alerts|
    requires Selects(alerts, status, from + 1, idx, r)
    ensures alerts[from].status == status ==> Selects(alerts, status, from, [from] + idx, [alerts[from]] + r)
    ensures alerts[from].status != status ==> Selects(alerts, status, from, idx, r)
  {
    if alerts[from].status == status {
      SelectsPicked(alerts, status, from, idx, r);
    } else {
      assert from !in idx;
    }
  }

  lemma SelectsPicked(alerts: seq<Alert>, status: string, from: nat, idx: seq<nat>, r: seq<Alert>)
    requires from < |alerts| && alerts[from].status == status
    requires Selects(alerts, status, from + 1, idx, r)
    ensures Selects(alerts, status, from, [from] + idx, [alerts[from]] + r)
  {
    var idx2 := [from] + idx;
    var r2 := [alerts[from]] + r;
    assert forall k :: 0 < k < |idx2| ==> idx2[k] == idx[k - 1] && r2[k] == r[k - 1];
    assert forall k, l :: 0 <= k < l < |idx2| ==> idx2[k] < idx2[l] by {
      assert forall l :: 0 < l < |idx2| ==> from < idx2[l];
    }
    assert forall i :: from <= i < |alerts| ==> (i in idx2 <==> i == from || i in idx);
  }

  /** `Alerts.Firing()`: the alerts whose status is "firing", in order. */
  function Firing(alerts: seq<Alert>): (r: seq<Alert>)
    ensures forall a :: a in r <==> a in alerts && a.status == "firing"
  {
    WithStatus(alerts, "firing")
  }

  /** `Alerts.Resolved()`: the alerts whose status is "resolved", in order. */
  function Resolved(alerts: seq<Alert>): (r: seq<Alert>)
    ensures forall a :: a in r <==> a in alerts && a.status == "resolved"
  {
    WithStatus(alerts, "resolved")
  }

  /** The two groups never share an alert, so together they are at most all alerts. */
  lemma {:induction false} GroupsPartition(alerts: seq<Alert>)
    ensures |Firing(alerts)| + |Resolved(alerts)| <= |alerts|
    ensures (forall i :: 0 <= i < |alerts| ==> alerts[i].status in {"firing", "resolved"})
            ==> |Firing(alerts)| + |Resolved(alerts)| == |alerts|
  {
    if |alerts| > 0 {
      GroupsPartition(alerts[1..]);
      assert forall i :: 1 <= i < |alerts| ==> alerts[i] == alerts[1..][i - 1];
    }
  }

  /** `name @instance`, then ` (exported)` when that label is non-empty, then a newline. */
  function AlertLine(a: Alert): string
  {
    var exported := Label(a.labels, "exported_instance");
    Label(a.labels, "alertname") + " @" + Label(a.labels, "instance")
    + (if |exported| > 0 then " (" + exported + ")" else "") + "\n"
  }

  function Lines(alerts: seq<Alert>): string
  {
    if |alerts| == 0 then "" else AlertLine(alerts[0]) + Lines(alerts[1..])
  }

  /** The three labels a line shows carry no newline. */
  predicate PlainLabels(a: Alert)
  {
    '\n' !in Label(a.labels, "alertname") && '\n' !in Label(a.labels, "instance")
    && '\n' !in Label(a.labels, "exported_instance")
  }

  /** Every alert is rendered as exactly one line. */
  lemma {:induction false} LinesCount(alerts: seq<Alert>)
    requires forall i :: 0 <= i < |alerts| ==> PlainLabels(alerts[i])
    ensures Count(Lines(alerts), '\n') == |alerts|
  {
    if |alerts| > 0 {
      AlertLineCount(alerts[0]);
      CountConcat(AlertLine(alerts[0]), Lines(alerts[1..]), '\n');
      LinesCount(alerts[1..]);
    }
  }

  /** An alert's line ends in the only newline it holds. */
  lemma AlertLineCount(a: Alert)
    requires PlainLabels(a)
    ensures Count(AlertLine(a), '\n') == 1
  {
    var exported := Label(a.labels, "exported_instance");
    var head := Label(a.labels, "alertname") + " @" + Label(a.labels, "instance")
                + (if |exported| > 0 then " (" + exported + ")" else "");
    assert AlertLine(a) == head + "\n";
    CountConcat(Label(a.labels, "alertname") + " @", Label(a.labels, "instance"), '\n');
    CountConcat(Label(a.labels, "alertname"), " @", '\n');
    CountConcat(Label(a.labels, "alertname") + " @" + Label(a.labels, "instance"),
                (if |exported| > 0 then " (" + exported + ")" else ""), '\n');
    if |exported| > 0 {
      CountConcat(" (", exported, '\n');
      CountConcat(" (" + exported, ")", '\n');
    }
    CountConcat(head, "\n", '\n');
  }

  /** A section: a `heading: ` header line, then one line per alert; nothing for no alerts. */
  function Section(heading: string, alerts: seq<Alert>): (r: string)
    ensures r == "" <==> |alerts| == 0
    ensures |alerts| > 0 ==> heading + ": \n" <= r
  {
    if |alerts| > 0 then heading + ": \n" + Lines(alerts) else ""
  }

  /** The text for more than one alert, with the sections in the given order. */
  function Sections(alerts: seq<Alert>, order: SectionOrder): string
  {
    var firing := Section("Firing", Firing(alerts));
    var resolved := Section("Resolved", Resolved(alerts));
    match order
    case FiringFirst => firing + resolved
    case ResolvedFirst => resolved + firing
  }

  /** When only one group has alerts, the map's iteration order cannot show. */
  lemma SectionOrderInvisibleForOneGroup(alerts: seq<Alert>)
    requires |Firing(alerts)| == 0 || |Resolved(alerts)| == 0
    ensures Sections(alerts, FiringFirst) == Sections(alerts, ResolvedFirst)
  {
  }

  /**
   Line structure of the multi-alert text in either section order: a header
   for each non-empty group plus one line per firing or resolved alert.
   */
  lemma SectionsLineCount(alerts: seq<Alert>, order: SectionOrder)
    requires forall i :: 0 <= i < |alerts| ==> PlainLabels(alerts[i])
    ensures Count(Sections(alerts, order), '\n')
            == |Firing(alerts)| + |Resolved(alerts)|
               + (if |Firing(alerts)| > 0 then 1 else 0) + (if |Resolved(alerts)| > 0 then 1 else 0)
  {
    var f := Firing(alerts);
    var r := Resolved(alerts);
    FilterKeepsPlain(alerts);
    SectionCount("Firing", f);
    SectionCount("Resolved", r);
    CountConcat(Section("Firing", f), Section("Resolved", r), '\n');
    CountConcat(Section("Resolved", r), Section("Firing", f), '\n');
  }

  lemma {:induction false} FilterKeepsPlain(alerts: seq<Alert>)
    requires forall i :: 0 <= i < |alerts| ==> PlainLabels(alerts[i])
    ensures forall i :: 0 <= i < |Firing(alerts)| ==> PlainLabels(Firing(alerts)[i])
    ensures forall i :: 0 <= i < |Resolved(alerts)| ==> PlainLabels(Resolved(alerts)[i])
  {
    if |alerts| > 0 {
      FilterKeepsPlain(alerts[1..]);
    }
  }

  lemma SectionCount(heading: string, alerts: seq<Alert>)
    requires '\n' !in heading
    requires forall i :: 0 <= i < |alerts| ==> PlainLabels(alerts[i])
    ensures Count(Section(heading, alerts), '\n') == |alerts| + (if |alerts| > 0 then 1 else 0)
  {
    if |alerts| > 0 {
      LinesCount(alerts);
      CountConcat(heading, ": \n", '\n');
      CountConcat(heading + ": \n", Lines(alerts), '\n');
    }
  }

  /** A heading rendered for sorting: `k= v`. */
  function Tuple(k: string, v: string): string
  {
    k + "= " + v
  }

  /** The `k= v` strings of a heading map, in the order `keys` ranges over it. */
  function Tuples(labels: map<string, string>, keys: seq<string>): (r: seq<string>)
    ensures |r| == |keys|
  {
    if |keys| == 0 then [] else [Tuple(keys[0], Label(labels, keys[0]))] + Tuples(labels, keys[1..])
  }

  lemma {:induction false} TuplesConcat(labels: map<string, string>, a: seq<string>, b: seq<string>)
    ensures Tuples(labels, a + b) == Tuples(labels, a) + Tuples(labels, b)
  {
    if |a| > 0 {
      assert (a + b)[1..] == a[1..] + b;
      TuplesConcat(labels, a[1..], b);
    } else {
      assert a + b == b;
    }
  }

  /** Removing one key removes exactly its tuple. */
  lemma TuplesRemove(labels: map<string, string>, b: seq<string>, j: nat)
    requires j < |b|
    ensures multiset(Tuples(labels, b))
            == multiset(Tuples(labels, b[..j] + b[j + 1..])) + multiset{Tuple(b[j], Label(labels, b[j]))}
  {
    assert b == b[..j] + ([b[j]] + b[j + 1..]);
    TuplesConcat(labels, b[..j], [b[j]] + b[j + 1..]);
    TuplesConcat(labels, [b[j]], b[j + 1..]);
    TuplesConcat(labels, b[..j], b[j + 1..]);
  }

  /** Ranging over the same keys in another order gives the same tuples, rearranged. */
  lemma {:induction false} TuplesPermutation(labels: map<string, string>, a: seq<string>, b: seq<string>)
    requires multiset(a) == multiset(b)
    ensures multiset(Tuples(labels, a)) == multiset(Tuples(labels, b))
    decreases |a|
  {
    if |a| == 0 {
      assert |multiset(b)| == 0;
    } else {
      assert a[0] in multiset(b);
      var j := Position(b, a[0]);
      var b' := b[..j] + b[j + 1..];
      RemoveAt(b, j);
      RemoveAt(a, 0);
      TuplesPermutation(labels, a[1..], b');
      TuplesRemove(labels, b, j);
      TuplesRemove(labels, a, 0);
      assert a[..0] + a[1..] == a[1..];
    }
  }

  /** Where `x` first occurs in `s`. */
  function Position(s: seq<string>, x: string): (j: nat)
    requires x in s
    ensures j < |s| && s[j] == x
  {
    if s[0] == x then 0 else 1 + Position(s[1..], x)
  }

  lemma RemoveAt(s: seq<string>, j: nat)
    requires j < |s|
    ensures multiset(s[..j] + s[j + 1..]) == multiset(s) - multiset{s[j]}
  {
    assert s == s[..j] + [s[j]] + s[j + 1..];
  }

  /** The text for exactly one alert: the upper-cased status, then the sorted tuples. */
  function SingleAlertText(status: string, labels: map<string, string>, keys: seq<string>): string
  {
    ToUpper(status) + " \n" + Join(Sorting.Sort(Tuples(labels, keys)), "\n")
  }

  /** Whatever order Go ranges over the labels in, the single-alert text is the same. */
  lemma SingleAlertTextOrderFree(status: string, labels: map<string, string>, k1: seq<string>, k2: seq<string>)
    requires Enumerates(k1, labels) && Enumerates(k2, labels)
    ensures SingleAlertText(status, labels, k1) == SingleAlertText(status, labels, k2)
  {
    TuplesPermutation(labels, k1, k2);
    Sorting.SortIgnoresOrder(Tuples(labels, k1), Tuples(labels, k2));
  }

  /**
   Below the status line, the single-alert text has one line per heading, and
   those lines are the `k= v` tuples in sorted order.
   */
  lemma SingleAlertLines(status: string, labels: map<string, string>, keys: seq<string>)
    requires |keys| > 0
    requires forall i :: 0 <= i < |keys| ==> '\n' !in Tuple(keys[i], Label(labels, keys[i]))
    ensures var body := Join(Sorting.Sort(Tuples(labels, keys)), "\n");
            && SingleAlertText(status, labels, keys) == ToUpper(status) + " \n" + body
            && Split(body, '\n') == Sorting.Sort(Tuples(labels, keys))
            && Sorting.Sorted(Split(body, '\n'))
  {
    var t := Tuples(labels, keys);
    var s := Sorting.Sort(t);
    TuplesFree(labels, keys);
    forall i | 0 <= i < |s|
      ensures '\n' !in s[i]
    {
      assert s[i] in multiset(t);
    }
    assert |s| > 0 by {
      assert t[0] in multiset(s);
    }
    SplitJoin(s, '\n');
  }

  lemma {:induction false} TuplesFree(labels: map<string, string>, keys: seq<string>)
    requires forall i :: 0 <= i < |keys| ==> '\n' !in Tuple(keys[i], Label(labels, keys[i]))
    ensures Free(Tuples(labels, keys), '\n')
  {
    if |keys| > 0 {
      TuplesFree(labels, keys[1..]);
    }
  }

  /**
   `newAlertText`: sections for more than one alert, the sorted heading tuples
   for exactly one, and the common heading values for none. `order` and
   `keys` stand for Go's map iteration order (of the two sections, and of the
   single alert's labels).
   */
  function NewAlertText(data: Data, order: SectionOrder, keys: seq<string>): (r: string)
    requires |data.alerts| == 1 ==> Enumerates(keys, data.alerts[0].labels)
    ensures |data.alerts| == 0 ==> r == "Alert \n" + Join(data.commonLabelValues, " | ")
    ensures |data.alerts| == 1 ==> ToUpper(data.status) + " \n" <= r
    ensures |data.alerts| > 1 && |Firing(data.alerts)| == 0 && |Resolved(data.alerts)| == 0 ==> r == ""
  {
    if |data.alerts| > 1 then Sections(data.alerts, order)
    else if |data.alerts| == 1 then SingleAlertText(data.status, data.alerts[0].labels, keys)
    else "Alert \n" + Join(data.commonLabelValues, " | ")
  }

  /**
   `newAlertText` for one alert: the upper-cased status line, then the
   label tuples sorted, whatever order Go ranges over the labels (or over
   the section map) in.
   */
  lemma NewAlertTextOneAlert(data: Data, order: SectionOrder, keys: seq<string>,
                             order': SectionOrder, keys': seq<string>)
    requires |data.alerts| == 1
    requires Enumerates(keys, data.alerts[0].labels) && Enumerates(keys', data.alerts[0].labels)
    ensures NewAlertText(data, order, keys)
            == ToUpper(data.status) + " \n" + Join(Sorting.Sort(Tuples(data.alerts[0].labels, keys)), "\n")
    ensures NewAlertText(data, order, keys) == NewAlertText(data, order', keys')
  {
    SingleAlertTextOrderFree(data.status, data.alerts[0].labels, keys, keys');
  }

  /**
   `newAlertText` for several alerts: empty exactly when no alert is firing
   or resolved; otherwise it starts with the header of the first non-empty
   group in the order Go ranges over the section map, and that order shows
   only when both groups are non-empty.
   */
  lemma NewAlertTextSeveral(data: Data, order: SectionOrder, keys: seq<string>,
                            order': SectionOrder, keys': seq<string>)
    requires |data.alerts| > 1
    ensures NewAlertText(data, order, keys) == "" <==> |Firing(data.alerts)| == 0 && |Resolved(data.alerts)| == 0
    ensures |Firing(data.alerts)| > 0 && (order == FiringFirst || |Resolved(data.alerts)| == 0)
            ==> "Firing: \n" <= NewAlertText(data, order, keys)
    ensures |Resolved(data.alerts)| > 0 && (order == ResolvedFirst || |Firing(data.alerts)| == 0)
            ==> "Resolved: \n" <= NewAlertText(data, order, keys)
    ensures |Firing(data.alerts)| == 0 || |Resolved(data.alerts)| == 0
            ==> NewAlertText(data, order, keys) == NewAlertText(data, order', keys')
  {
    var fs := Firing(data.alerts);
    var vs := Resolved(data.alerts);
    var f := Section("Firing", fs);
    var v := Section("Resolved", vs);
    SectionsShape(f, v, |fs|, |vs|);
    assert NewAlertText(data, order, keys) == if order == FiringFirst then f + v else v + f;
    assert NewAlertText(data, order', keys') == if order' == FiringFirst then f + v else v + f;
  }

  /** Two sections in either order, with `m` and `n` alerts. */
  lemma SectionsShape(f: string, v: string, m: nat, n: nat)
    requires f == "" <==> m == 0
    requires v == "" <==> n == 0
    requires m > 0 ==> "Firing: \n" <= f
    requires n > 0 ==> "Resolved: \n" <= v
    ensures f + v == "" <==> m == 0 && n == 0
    ensures v + f == "" <==> m == 0 && n == 0
    ensures m > 0 ==> "Firing: \n" <= f + v
    ensures m > 0 && n == 0 ==> "Firing: \n" <= v + f
    ensures n > 0 ==> "Resolved: \n" <= v + f
    ensures n > 0 && m == 0 ==> "Resolved: \n" <= f + v
    ensures m == 0 || n == 0 ==> f + v == v + f
  {
    PrefixOfConcat("Firing: \n", f, v);
    PrefixOfConcat("Resolved: \n", v, f);
    assert f + "" == f && "" + v == v && v + "" == v && "" + f == f;
  }

  /**
   When the labels a line shows hold no newline, the several-alert text has
   one line per firing or resolved alert plus one header line per non-empty
   group.
   */
  lemma NewAlertTextLineCount(data: Data, order: SectionOrder, keys: seq<string>)
    requires |data.alerts| > 1
    requires forall i :: 0 <= i < |data.alerts| ==> PlainLabels(data.alerts[i])
    ensures var f := Firing(data.alerts);
            var v := Resolved(data.alerts);
            Count(NewAlertText(data, order, keys), '\n')
            == |f| + |v| + (if |f| > 0 then 1 else 0) + (if |v| > 0 then 1 else 0)
  {
    SectionsLineCount(data.alerts, order);
  }

  lemma PrefixOfConcat(p: string, a: string, b: string)
    ensures p <= a ==> p <= a + b
  {
    if p <= a {
      assert (a + b)[..|p|] == a[..|p|];
    }
  }

  /**
   The text of the `/alert` handler registered in `main.go`: the same
   sections, but the single alert's tuples are joined in map order, unsorted.
   */
  function InlineAlertText(data: Data, order: SectionOrder, keys: seq<string>): (r: string)
    ensures |data.alerts| != 1 ==> r == NewAlertText(data, order, keys)
  {
    if |data.alerts| > 1 then Sections(data.alerts, order)
    else if |data.alerts| == 1 then
      ToUpper(data.status) + " \n" + Join(Tuples(data.alerts[0].labels, keys), "\n")
    else "Alert \n" + Join(data.commonLabelValues, " | ")
  }

  /** The two renderers agree whenever Go happens to range over the labels in sorted order. */
  lemma InlineAgreesWhenRangeIsSorted(data: Data, order: SectionOrder, keys: seq<string>)
    requires |data.alerts| == 1 && Enumerates(keys, data.alerts[0].labels)
    requires Sorting.Sorted(Tuples(data.alerts[0].labels, keys))
    ensures InlineAlertText(data, order, keys) == NewAlertText(data, order, keys)
  {
    var t := Tuples(data.alerts[0].labels, keys);
    Sorting.SortedUnique(Sorting.Sort(t), t);
  }
}
