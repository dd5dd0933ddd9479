/**
 frontend/src/app/services/chat-thread.service.ts, buildDisplayItems: date separators and the unread
 divider between the messages of a thread. The calendar (day key and day label of a moment) is a
 parameter.
 */
module Display {
  import opened Common
  import opened Thread

  datatype Item = Shown(m: Msg) | Divider | DateSep(text: string)

  /** Message i is the first of a maximal run of messages of one day. */
  predicate StartsDay(ms: seq<Msg>, i: nat, dayKey: int -> string)
    requires i < |ms|
  {
    i == 0 || dayKey(ms[i].createdAt) != dayKey(ms[i - 1].createdAt)
  }

  /** What is rendered for message i. */
  function Block(ms: seq<Msg>, i: nat, divider: int, dayKey: int -> string, dayLabel: int -> string): seq<Item>
    requires i < |ms|
  {
    (if StartsDay(ms, i, dayKey) then [DateSep(dayLabel(ms[i].createdAt))] else [])
    + (if i == divider then [Divider] else [])
    + [Shown(ms[i])]
  }

  function Build(ms: seq<Msg>, n: nat, divider: int, dayKey: int -> string, dayLabel: int -> string): seq<Item>
    requires n <= |ms|
  {
    if n == 0 then [] else Build(ms, n - 1, divider, dayKey, dayLabel) + Block(ms, n - 1, divider, dayKey, dayLabel)
  }

  method BuildDisplayItems(ms: seq<Msg>, divider: int, dayKey: int -> string, dayLabel: int -> string)
    returns (items: seq<Item>)
    requires forall t :: dayKey(t) != ""
    ensures items == Build(ms, |ms|, divider, dayKey, dayLabel)
    ensures forall i :: 0 <= i < |ms| ==> Renders(items, ms, i, divider, dayKey, dayLabel)
  {
    items := [];
    var lastDay := "";
    for i := 0 to |ms|
      invariant items == Build(ms, i, divider, dayKey, dayLabel)
      invariant lastDay == if i == 0 then "" else dayKey(ms[i - 1].createdAt)
    {
      var day := dayKey(ms[i].createdAt);
      ghost var before := items;
      if day != lastDay {
        items := items + [DateSep(dayLabel(ms[i].createdAt))];
        lastDay := day;
      }
      if i == divider {
        items := items + [Divider];
      }
      items := items + [Shown(ms[i])];
      assert items == before + Block(ms, i, divider, dayKey, dayLabel);
    }
    forall i | 0 <= i < |ms|
      ensures Renders(items, ms, i, divider, dayKey, dayLabel)
    {
      var p, q := Rendered(ms, i, divider, dayKey, dayLabel);
    }
  }

  // ---------- Reading the items back ----------

  function Erase(items: seq<Item>): seq<Msg> {
    if items == [] then []
    else (if items[0].Shown? then [items[0].m] else []) + Erase(items[1..])
  }

  function Labels(items: seq<Item>): seq<string> {
    if items == [] then []
    else (if items[0].DateSep? then [items[0].text] else []) + Labels(items[1..])
  }

  function Dividers(items: seq<Item>): nat {
    if items == [] then 0 else (if items[0].Divider? then 1 else 0) + Dividers(items[1..])
  }

  lemma {:induction false} EraseConcat(a: seq<Item>, b: seq<Item>)
    ensures Erase(a + b) == Erase(a) + Erase(b)
  {
    if a == [] {
      assert a + b == b;
    } else {
      var first: seq<Msg> := if a[0].Shown? then [a[0].m] else [];
      assert (a + b)[0] == a[0] && (a + b)[1..] == a[1..] + b;
      EraseConcat(a[1..], b);
      assert first + (Erase(a[1..]) + Erase(b)) == (first + Erase(a[1..])) + Erase(b);
    }
  }

  lemma {:induction false} LabelsConcat(a: seq<Item>, b: seq<Item>)
    ensures Labels(a + b) == Labels(a) + Labels(b)
  {
    if a == [] {
      assert a + b == b;
    } else {
      var first: seq<string> := if a[0].DateSep? then [a[0].text] else [];
      assert (a + b)[0] == a[0] && (a + b)[1..] == a[1..] + b;
      LabelsConcat(a[1..], b);
      assert first + (Labels(a[1..]) + Labels(b)) == (first + Labels(a[1..])) + Labels(b);
    }
  }

  lemma {:induction false} DividersConcat(a: seq<Item>, b: seq<Item>)
    ensures Dividers(a + b) == Dividers(a) + Dividers(b)
  {
    if a == [] {
      assert a + b == b;
    } else {
      assert (a + b)[0] == a[0] && (a + b)[1..] == a[1..] + b;
      DividersConcat(a[1..], b);
    }
  }

  /** The label of the same-day run that message i starts, if it starts one. */
  function RunLabel(ms: seq<Msg>, i: nat, dayKey: int -> string, dayLabel: int -> string): seq<string>
    requires i < |ms|
  {
    if StartsDay(ms, i, dayKey) then [dayLabel(ms[i].createdAt)] else []
  }

  lemma BlockReads(ms: seq<Msg>, i: nat, divider: int, dayKey: int -> string, dayLabel: int -> string)
    requires i < |ms|
    ensures var b := Block(ms, i, divider, dayKey, dayLabel);
            && Erase(b) == [ms[i]]
            && Labels(b) == RunLabel(ms, i, dayKey, dayLabel)
            && Dividers(b) == if i == divider then 1 else 0
  {
    var sep: seq<Item> := if StartsDay(ms, i, dayKey) then [DateSep(dayLabel(ms[i].createdAt))] else [];
    var div: seq<Item> := if i == divider then [Divider] else [];
    var shown := [Shown(ms[i])];
    assert shown[1..] == [];
    assert sep != [] ==> sep[1..] == [];
    assert div != [] ==> div[1..] == [];
    EraseConcat(sep + div, shown);
    EraseConcat(sep, div);
    LabelsConcat(sep + div, shown);
    LabelsConcat(sep, div);
    DividersConcat(sep + div, shown);
    DividersConcat(sep, div);
  }

  /** The labels of the run starts among the first n messages. */
  function RunLabels(ms: seq<Msg>, n: nat, dayKey: int -> string, dayLabel: int -> string): seq<string>
    requires n <= |ms|
  {
    if n == 0 then []
    else RunLabels(ms, n - 1, dayKey, dayLabel) + RunLabel(ms, n - 1, dayKey, dayLabel)
  }

  // Each of these: one more message, whose block comes after the items of the messages before it.

  lemma NextErased(ms: seq<Msg>, n: nat, divider: int, dayKey: int -> string, dayLabel: int -> string)
    requires 0 < n <= |ms|
    ensures Erase(Build(ms, n, divider, dayKey, dayLabel)) == Erase(Build(ms, n - 1, divider, dayKey, dayLabel)) + [ms[n - 1]]
  {
    BlockReads(ms, n - 1, divider, dayKey, dayLabel);
    EraseConcat(Build(ms, n - 1, divider, dayKey, dayLabel), Block(ms, n - 1, divider, dayKey, dayLabel));
  }

  lemma NextLabelled(ms: seq<Msg>, n: nat, divider: int, dayKey: int -> string, dayLabel: int -> string)
    requires 0 < n <= |ms|
    ensures Labels(Build(ms, n, divider, dayKey, dayLabel)) ==
            Labels(Build(ms, n - 1, divider, dayKey, dayLabel)) + RunLabel(ms, n - 1, dayKey, dayLabel)
  {
    BlockReads(ms, n - 1, divider, dayKey, dayLabel);
    LabelsConcat(Build(ms, n - 1, divider, dayKey, dayLabel), Block(ms, n - 1, divider, dayKey, dayLabel));
  }

  lemma NextDivided(ms: seq<Msg>, n: nat, divider: int, dayKey: int -> string, dayLabel: int -> string)
    requires 0 < n <= |ms|
    ensures Dividers(Build(ms, n, divider, dayKey, dayLabel)) ==
            Dividers(Build(ms, n - 1, divider, dayKey, dayLabel)) + if n - 1 == divider then 1 else 0
  {
    BlockReads(ms, n - 1, divider, dayKey, dayLabel);
    DividersConcat(Build(ms, n - 1, divider, dayKey, dayLabel), Block(ms, n - 1, divider, dayKey, dayLabel));
  }

  lemma {:induction false} ErasedBuild(ms: seq<Msg>, n: nat, divider: int, dayKey: int -> string, dayLabel: int -> string)
    requires n <= |ms|
    ensures Erase(Build(ms, n, divider, dayKey, dayLabel)) == ms[..n]
  {
    if n > 0 {
      ErasedBuild(ms, n - 1, divider, dayKey, dayLabel);
      NextErased(ms, n, divider, dayKey, dayLabel);
      assert ms[..n] == ms[..n - 1] + [ms[n - 1]];
    }
  }

  lemma {:induction false} LabelledBuild(ms: seq<Msg>, n: nat, divider: int, dayKey: int -> string, dayLabel: int -> string)
    requires n <= |ms|
    ensures Labels(Build(ms, n, divider, dayKey, dayLabel)) == RunLabels(ms, n, dayKey, dayLabel)
  {
    if n > 0 {
      LabelledBuild(ms, n - 1, divider, dayKey, dayLabel);
      NextLabelled(ms, n, divider, dayKey, dayLabel);
    }
  }

  lemma {:induction false} DividedBuild(ms: seq<Msg>, n: nat, divider: int, dayKey: int -> string, dayLabel: int -> string)
    requires n <= |ms|
    ensures Dividers(Build(ms, n, divider, dayKey, dayLabel)) == if 0 <= divider < n then 1 else 0
  {
    if n > 0 {
      DividedBuild(ms, n - 1, divider, dayKey, dayLabel);
      NextDivided(ms, n, divider, dayKey, dayLabel);
    }
  }

  /**
   Erasing the separators gives the thread back; there is one date separator per maximal same-day run,
   labelled for it and in order; and the divider is there exactly once if its index is in range.
   */
  lemma ItemsReadBack(ms: seq<Msg>, n: nat, divider: int, dayKey: int -> string, dayLabel: int -> string)
    requires n <= |ms|
    ensures var items := Build(ms, n, divider, dayKey, dayLabel);
            && Erase(items) == ms[..n]
            && Labels(items) == RunLabels(ms, n, dayKey, dayLabel)
            && Dividers(items) == if 0 <= divider < n then 1 else 0
  {
    ErasedBuild(ms, n, divider, dayKey, dayLabel);
    LabelledBuild(ms, n, divider, dayKey, dayLabel);
    DividedBuild(ms, n, divider, dayKey, dayLabel);
  }

  lemma {:induction false} BuildPrefix(ms: seq<Msg>, i: nat, n: nat, divider: int, dayKey: int -> string, dayLabel: int -> string)
    requires i <= n <= |ms|
    ensures Build(ms, i, divider, dayKey, dayLabel) <= Build(ms, n, divider, dayKey, dayLabel)
  {
    if i < n {
      BuildPrefix(ms, i, n - 1, divider, dayKey, dayLabel);
    }
  }

  /** The items for message i stand together, after those for the messages before it. */
  lemma BlockStands(ms: seq<Msg>, i: nat, divider: int, dayKey: int -> string, dayLabel: int -> string)
    requires i < |ms|
    ensures var items, p := Build(ms, |ms|, divider, dayKey, dayLabel), |Build(ms, i, divider, dayKey, dayLabel)|;
            var b := Block(ms, i, divider, dayKey, dayLabel);
            && p + |b| <= |items| && items[p..p + |b|] == b
            && items[..p] == Build(ms, i, divider, dayKey, dayLabel)
  {
    BuildPrefix(ms, i + 1, |ms|, divider, dayKey, dayLabel);
    Slot(Build(ms, |ms|, divider, dayKey, dayLabel), Build(ms, i, divider, dayKey, dayLabel),
         Block(ms, i, divider, dayKey, dayLabel));
  }

  lemma Slot(items: seq<Item>, before: seq<Item>, b: seq<Item>)
    requires before + b <= items
    ensures items[..|before|] == before
    ensures items[|before|..|before| + |b|] == b
  {
    assert (before + b)[|before|..] == b;
  }

  lemma BlockShape(ms: seq<Msg>, i: nat, divider: int, dayKey: int -> string, dayLabel: int -> string)
    requires i < |ms|
    ensures var b, q := Block(ms, i, divider, dayKey, dayLabel), if StartsDay(ms, i, dayKey) then 1 else 0;
            && |b| == q + (if i == divider then 2 else 1)
            && (StartsDay(ms, i, dayKey) <==> b[0] == DateSep(dayLabel(ms[i].createdAt)))
            && (i == divider ==> b[q] == Divider && b[q + 1] == Shown(ms[i]))
            && (i != divider ==> b[q] == Shown(ms[i]))
  {
  }

  /**
   Where each message stands: after everything for the messages before it come its separator, if it
   starts a day, then the divider, if it is the first unread one, then the message.
   */
  lemma Placed(ms: seq<Msg>, i: nat, divider: int, dayKey: int -> string, dayLabel: int -> string)
    requires i < |ms|
    ensures var items, p := Build(ms, |ms|, divider, dayKey, dayLabel), |Build(ms, i, divider, dayKey, dayLabel)|;
            && p < |items| && Erase(items[..p]) == ms[..i]
            && (StartsDay(ms, i, dayKey) <==> items[p] == DateSep(dayLabel(ms[i].createdAt)))
            && (i == divider ==>
                  var q := if StartsDay(ms, i, dayKey) then p + 1 else p;
                  q + 1 < |items| && items[q] == Divider && items[q + 1] == Shown(ms[i]))
            && (i != divider ==>
                  var q := if StartsDay(ms, i, dayKey) then p + 1 else p;
                  q < |items| && items[q] == Shown(ms[i]))
  {
    BlockStands(ms, i, divider, dayKey, dayLabel);
    BlockShape(ms, i, divider, dayKey, dayLabel);
    ErasedBuild(ms, i, divider, dayKey, dayLabel);
    var items, p := Build(ms, |ms|, divider, dayKey, dayLabel), |Build(ms, i, divider, dayKey, dayLabel)|;
    var b := items[p..p + |Block(ms, i, divider, dayKey, dayLabel)|];
    assert forall k :: 0 <= k < |b| ==> b[k] == items[p + k];
  }

  // ---------- Where the separators stand ----------

  /**
   Items p up to q are what is rendered for message i, right behind message i - 1: a separator with
   the label of its day if it is the first message or its day is another than that of message i - 1,
   the divider if i is its index, and the message.
   */
  ghost predicate RendersAt(items: seq<Item>, ms: seq<Msg>, i: nat, divider: int,
                            dayKey: int -> string, dayLabel: int -> string, p: nat, q: nat)
    requires i < |ms|
  {
    && p < q <= |items| && Erase(items[..p]) == ms[..i]
    && (if i == 0 then p == 0 else p > 0 && items[p - 1] == Shown(ms[i - 1]))
    && items[p..q] ==
       (if i > 0 && dayKey(ms[i].createdAt) == dayKey(ms[i - 1].createdAt) then [] else [DateSep(dayLabel(ms[i].createdAt))])
       + (if i == divider then [Divider] else [])
       + [Shown(ms[i])]
  }

  ghost predicate Renders(items: seq<Item>, ms: seq<Msg>, i: nat, divider: int, dayKey: int -> string, dayLabel: int -> string)
    requires i < |ms|
  {
    exists p: nat, q: nat :: RendersAt(items, ms, i, divider, dayKey, dayLabel, p, q)
  }

  lemma EndsShown(ms: seq<Msg>, i: nat, divider: int, dayKey: int -> string, dayLabel: int -> string)
    requires i < |ms|
    ensures var b := Build(ms, i + 1, divider, dayKey, dayLabel); b != [] && b[|b| - 1] == Shown(ms[i])
  {
  }

  lemma Rendered(ms: seq<Msg>, i: nat, divider: int, dayKey: int -> string, dayLabel: int -> string) returns (p: nat, q: nat)
    requires i < |ms|
    ensures RendersAt(Build(ms, |ms|, divider, dayKey, dayLabel), ms, i, divider, dayKey, dayLabel, p, q)
  {
    var items, before := Build(ms, |ms|, divider, dayKey, dayLabel), Build(ms, i, divider, dayKey, dayLabel);
    p := |before|;
    q := p + |Block(ms, i, divider, dayKey, dayLabel)|;
    BlockStands(ms, i, divider, dayKey, dayLabel);
    ErasedBuild(ms, i, divider, dayKey, dayLabel);
    if i > 0 {
      EndsShown(ms, i - 1, divider, dayKey, dayLabel);
      assert items[p - 1] == items[..p][p - 1];
    }
  }

  /** Every thread opens with the date of its first message. */
  lemma OpensWithItsDate(ms: seq<Msg>, divider: int, dayKey: int -> string, dayLabel: int -> string)
    requires ms != []
    ensures var items := Build(ms, |ms|, divider, dayKey, dayLabel);
            items != [] && items[0] == DateSep(dayLabel(ms[0].createdAt))
  {
    var p, q := Rendered(ms, 0, divider, dayKey, dayLabel);
    var items := Build(ms, |ms|, divider, dayKey, dayLabel);
    assert items[p..q][0] == items[0];
  }

  /** The days that the first n messages fall on. */
  function Days(ms: seq<Msg>, n: nat, dayKey: int -> string): set<string>
    requires n <= |ms|
  {
    if n == 0 then {} else Days(ms, n - 1, dayKey) + {dayKey(ms[n - 1].createdAt)}
  }

  lemma {:induction false} InDays(ms: seq<Msg>, n: nat, dayKey: int -> string, day: string)
    requires n <= |ms|
    ensures day in Days(ms, n, dayKey) <==> exists i :: 0 <= i < n && dayKey(ms[i].createdAt) == day
  {
    if n > 0 {
      InDays(ms, n - 1, dayKey, day);
    }
  }

  /** A calendar: the moments of one day are an unbroken stretch of time. */
  ghost predicate IsCalendar(dayKey: int -> string) {
    forall a, b, c :: a <= b <= c && dayKey(a) == dayKey(c) ==> dayKey(b) == dayKey(a)
  }

  /** In a thread sorted by time no day gets two separators. */
  lemma OneSeparatorPerDay(ms: seq<Msg>, i: nat, j: nat, dayKey: int -> string)
    requires IsCalendar(dayKey) && Sorted(ms, Earlier())
    requires i < j < |ms| && StartsDay(ms, i, dayKey) && StartsDay(ms, j, dayKey)
    ensures dayKey(ms[i].createdAt) != dayKey(ms[j].createdAt)
  {
    var a, b, c := ms[i].createdAt, ms[j - 1].createdAt, ms[j].createdAt;
    assert !Earlier()(ms[j], ms[j - 1]);
    assert i < j - 1 ==> !Earlier()(ms[j - 1], ms[i]);
    assert a <= b <= c;
  }

  lemma OneDay(dayKey: int -> string, a: int, b: int, c: int)
    requires IsCalendar(dayKey) && a <= b <= c && dayKey(a) == dayKey(c)
    ensures dayKey(b) == dayKey(a)
  {
  }

  /** In a sorted thread, a day that is not over has not been interrupted. */
  lemma SameDayBefore(ms: seq<Msg>, i: nat, n: nat, dayKey: int -> string)
    requires IsCalendar(dayKey) && Sorted(ms, Earlier())
    requires i < n < |ms| && dayKey(ms[i].createdAt) == dayKey(ms[n].createdAt)
    ensures dayKey(ms[n - 1].createdAt) == dayKey(ms[n].createdAt)
  {
    SortedByTime(ms);
    OneDay(dayKey, ms[i].createdAt, ms[n - 1].createdAt, ms[n].createdAt);
  }

  /** Whether message n opens a day that none before it falls on, with the key of that day given. */
  lemma NewDay(ms: seq<Msg>, n: nat, dayKey: int -> string, day: string)
    requires IsCalendar(dayKey) && Sorted(ms, Earlier()) && n < |ms| && day == dayKey(ms[n].createdAt)
    ensures day in Days(ms, n, dayKey) <==> n > 0 && dayKey(ms[n - 1].createdAt) == day
  {
    InDays(ms, n, dayKey, day);
    if day in Days(ms, n, dayKey) {
      var i :| 0 <= i < n && dayKey(ms[i].createdAt) == day;
      SameDayBefore(ms, i, n, dayKey);
    }
  }

  lemma {:induction false} AsManyLabels(ms: seq<Msg>, n: nat, dayKey: int -> string, dayLabel: int -> string)
    requires IsCalendar(dayKey) && Sorted(ms, Earlier()) && n <= |ms|
    ensures |RunLabels(ms, n, dayKey, dayLabel)| == |Days(ms, n, dayKey)|
  {
    if n > 0 {
      AsManyLabels(ms, n - 1, dayKey, dayLabel);
      NewDay(ms, n - 1, dayKey, dayKey(ms[n - 1].createdAt));
    }
  }

  /** A thread sorted by time shows exactly as many separators as it has days. */
  lemma AsManySeparatorsAsDays(ms: seq<Msg>, divider: int, dayKey: int -> string, dayLabel: int -> string)
    requires IsCalendar(dayKey) && Sorted(ms, Earlier())
    ensures |Labels(Build(ms, |ms|, divider, dayKey, dayLabel))| == |set m | m in ms :: dayKey(m.createdAt)|
  {
    LabelledBuild(ms, |ms|, divider, dayKey, dayLabel);
    AsManyLabels(ms, |ms|, dayKey, dayLabel);
    var days := set m | m in ms :: dayKey(m.createdAt);
    forall day
      ensures day in days <==> day in Days(ms, |ms|, dayKey)
    {
      InDays(ms, |ms|, dayKey, day);
      if day in Days(ms, |ms|, dayKey) {
        var i :| 0 <= i < |ms| && dayKey(ms[i].createdAt) == day;
        assert ms[i] in ms;
      }
    }
    assert days == Days(ms, |ms|, dayKey);
  }
}
