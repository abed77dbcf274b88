/**
  The reminder record and the demo suggestion source of the reminder service.
  A reminder's `when` is an ISO timestamp in the application; here it is the
  instant it denotes, in integer milliseconds since the epoch. The source reads
  the clock itself; here the clock value `now` is a parameter.
 */
module ReminderService {
  import opened Decimal

  datatype Option<T> = None | Some(value: T)

  datatype Priority = Low | Medium | High

  /** A suggested (or, once accepted, upcoming) reminder; `priority` is optional. */
  datatype Reminder = Reminder(id: string, text: string, when: int, priority: Option<Priority>)

  const HourMillis: int := 1000 * 60 * 60

  const SlidesText: string := "Prepare slides for tomorrow\U{2019}s meeting"
  const ChargerText: string := "Charge laptop + pack charger"
  const AgendaText: string := "Send agenda to attendees"

  /** The id `demo-${k}` given to a demo suggestion. */
  function DemoId(k: int): string
  {
    "demo-" + IntToString(k)
  }

  /**
    The three suggestions the demo source returns when the clock reads `now`:
    ids `demo-` followed by now+1, now+2 and now+3; due 24 h, 2 h and 6 h later;
    priorities high, medium and low.
   */
  function GenerateRemindersDemo(now: int): (r: seq<Reminder>)
    ensures |r| == 3
    ensures forall i :: 0 <= i < |r| ==> r[i].when > now
    ensures r[0].when - now == 24 * HourMillis && r[1].when - now == 2 * HourMillis
         && r[2].when - now == 6 * HourMillis
    ensures r[1].when < r[2].when < r[0].when
    ensures r[0].priority == Some(High) && r[1].priority == Some(Medium)
         && r[2].priority == Some(Low)
    ensures r[0].id == DemoId(now + 1) && r[1].id == DemoId(now + 2) && r[2].id == DemoId(now + 3)
    ensures forall i :: 0 <= i < |r| ==> r[i].id == DemoId(now + i + 1)
  {
    var first := Reminder(DemoId(now + 1), SlidesText,
                          now + 1000 * 60 * 60 * 24, Some(High));
    var second := Reminder(DemoId(now + 2), ChargerText,
                           now + 1000 * 60 * 60 * 2, Some(Medium));
    var third := Reminder(DemoId(now + 3), AgendaText,
                          now + 1000 * 60 * 60 * 6, Some(Low));
    [first, second, third]
  }

  /**
    The largest magnitude of a time value a JavaScript Date can hold (ECMA-262,
    "Time Values and Time Range"): 8.64e15 ms either side of the epoch. Outside it
    a Date is invalid and `toISOString` throws a RangeError.
   */
  const MaxTimeMillis: int := 8_640_000_000_000_000

  predicate InDateRange(t: int) {
    -MaxTimeMillis <= t <= MaxTimeMillis
  }

  /**
    What awaiting the demo source yields: the batch, or a rejection when one of
    the due times cannot be written as an ISO timestamp. That happens exactly when
    the 24 h entry lies past the end of the Date range or the 2 h entry lies
    before its start.
   */
  function FetchRemindersDemo(now: int): (r: Option<seq<Reminder>>)
    ensures r.Some? <==> -MaxTimeMillis - 2 * HourMillis <= now <= MaxTimeMillis - 24 * HourMillis
    ensures r.Some? ==> r.value == GenerateRemindersDemo(now)
  {
    var batch := GenerateRemindersDemo(now);
    if forall i :: 0 <= i < |batch| ==> InDateRange(batch[i].when) then Some(batch) else None
  }

  /** Demo ids built from different numbers differ. */
  lemma DemoIdInjective(a: int, b: int)
    requires DemoId(a) == DemoId(b)
    ensures a == b
  {
    var s := DemoId(a);
    assert s[5..] == IntToString(a) && s[5..] == IntToString(b);
    IntToStringInjective(a, b);
  }

  lemma DemoIdsDiffer(a: int, b: int)
    requires a != b
    ensures DemoId(a) != DemoId(b)
  {
    if DemoId(a) == DemoId(b) {
      DemoIdInjective(a, b);
    }
  }

  /** The three ids of one demo batch are pairwise distinct. */
  lemma DemoIdsDistinct(now: int)
    ensures forall i, j :: 0 <= i < j < 3 ==>
      GenerateRemindersDemo(now)[i].id != GenerateRemindersDemo(now)[j].id
  {
    var r := GenerateRemindersDemo(now);
    forall i, j | 0 <= i < j < 3
      ensures r[i].id != r[j].id
    {
      DemoIdsDiffer(now + i + 1, now + j + 1);
    }
  }

  /** Ids numbered from `a` and from `b`, three each, differ when `a` and `b` are 3 or more apart. */
  lemma DemoIdRunsApart(a: int, b: int, ra: seq<Reminder>, rb: seq<Reminder>)
    requires a - b >= 3 || b - a >= 3
    requires |ra| == 3 && forall i :: 0 <= i < 3 ==> ra[i].id == DemoId(a + i + 1)
    requires |rb| == 3 && forall j :: 0 <= j < 3 ==> rb[j].id == DemoId(b + j + 1)
    ensures forall i, j :: 0 <= i < 3 && 0 <= j < 3 ==> ra[i].id != rb[j].id
  {
    forall i, j | 0 <= i < 3 && 0 <= j < 3
      ensures ra[i].id != rb[j].id
    {
      DemoIdsDiffer(a + i + 1, b + j + 1);
    }
  }

  /** Batches fetched at clock readings 3 ms or more apart share no id. */
  lemma DemoBatchesApart(a: int, b: int)
    requires a - b >= 3 || b - a >= 3
    ensures forall i, j :: 0 <= i < 3 && 0 <= j < 3 ==>
      GenerateRemindersDemo(a)[i].id != GenerateRemindersDemo(b)[j].id
  {
    DemoIdRunsApart(a, b, GenerateRemindersDemo(a), GenerateRemindersDemo(b));
  }

  /** Batches fetched at clock readings less than 3 ms apart share an id. */
  lemma DemoBatchesClose(a: int, b: int) returns (i: nat, j: nat)
    requires -3 < a - b < 3
    ensures i < 3 && j < 3
    ensures GenerateRemindersDemo(a)[i].id == GenerateRemindersDemo(b)[j].id
  {
    i, j := if a <= b then b - a else 0, if a <= b then 0 else a - b;
    var k := a + i + 1;
    assert b + j + 1 == k;
    assert GenerateRemindersDemo(a)[i].id == DemoId(k);
    assert GenerateRemindersDemo(b)[j].id == DemoId(k);
  }

  /**
    Two demo batches, fetched with clock readings `a` and `b`, share an id
    exactly when the readings are less than 3 ms apart.
   */
  lemma DemoBatchesShareId(a: int, b: int)
    ensures (exists i, j :: 0 <= i < 3 && 0 <= j < 3 &&
               GenerateRemindersDemo(a)[i].id == GenerateRemindersDemo(b)[j].id)
        <==> -3 < a - b < 3
  {
    if -3 < a - b < 3 {
      var i, j := DemoBatchesClose(a, b);
    } else {
      DemoBatchesApart(a, b);
    }
  }
}
