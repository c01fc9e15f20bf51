/** The daily prayer checklist of the dashboard page: five fixed prayer slots,
    each with a completion flag the user toggles, and the counts derived from them. */
module DashboardPage {
  import opened Feedback

  /** One prayer card. The icon the page also stores is presentation only. */
  datatype Prayer = Prayer(id: string, name: string, arabicName: string, time: string, completed: bool)

  /** The slot identifiers, in the order the cards are listed. */
  const SlotIds: seq<string> := ["fajr", "dhuhr", "asr", "maghrib", "isha"]

  /** The list the page starts from: dhuhr, asr and isha are already ticked. */
  function InitialPrayers(): (ps: seq<Prayer>)
    ensures Ids(ps) == SlotIds
    ensures forall i :: 0 <= i < |ps| ==> (ps[i].completed <==> Ids(ps)[i] in {"dhuhr", "asr", "isha"})
  {
    [ Prayer("fajr", "Fajr", "الفجر", "5:30 AM", false),
      Prayer("dhuhr", "Dhuhr", "الظهر", "12:15 PM", true),
      Prayer("asr", "Asr", "العصر", "3:45 PM", true),
      Prayer("maghrib", "Maghrib", "المغرب", "6:20 PM", false),
      Prayer("isha", "Isha", "العشاء", "8:00 PM", true) ]
  }

  function Ids(ps: seq<Prayer>): seq<string>
  {
    seq(|ps|, i requires 0 <= i < |ps| => ps[i].id)
  }

  predicate Distinct(ids: seq<string>)
  {
    forall i, j :: 0 <= i < j < |ids| ==> ids[i] != ids[j]
  }

  /** The callback `togglePrayer` maps over the list: flip the card whose id matches. */
  function Flip(p: Prayer, id: string): Prayer
  {
    if p.id == id then p.(completed := !p.completed) else p
  }

  /** The list `togglePrayer(id)` puts in place of `ps`. */
  function Toggle(ps: seq<Prayer>, id: string): (r: seq<Prayer>)
    ensures |r| == |ps|
  {
    seq(|ps|, i requires 0 <= i < |ps| => Flip(ps[i], id))
  }

  /** `prayers.filter(prayer => prayer.completed).length` */
  function CountCompleted(ps: seq<Prayer>): (n: nat)
    ensures n <= |ps|
    ensures n == 0 <==> forall i :: 0 <= i < |ps| ==> !ps[i].completed
    ensures n == |ps| <==> forall i :: 0 <= i < |ps| ==> ps[i].completed
  {
    if ps == [] then 0
    else (if ps[0].completed then 1 else 0) + CountCompleted(ps[1..])
  }

  /** The toast shown for a card that is being flipped; `p` is the card before the flip. */
  function ToggleNotice(p: Prayer): (t: Toast)
    ensures t.title == "Prayer completed!" <==> !p.completed
    ensures t.variant == Destructive <==> p.completed
  {
    var nowCompleted := !p.completed;
    Toast(if nowCompleted then "Prayer completed!" else "Prayer unmarked",
          if nowCompleted then "Alhamdulillahi, " + p.name + " prayer has been marked complete."
          else p.name + " prayer has been unmarked.",
          if nowCompleted then Default else Destructive)
  }

  /** The toasts `togglePrayer(id)` shows, one per matching card, in list order. */
  function ToggleNotices(ps: seq<Prayer>, id: string): (ts: seq<Toast>)
    ensures |ts| <= |ps|
    ensures ts == [] <==> forall i :: 0 <= i < |ps| ==> ps[i].id != id
    ensures forall t :: t in ts ==> exists i :: 0 <= i < |ps| && ps[i].id == id && t == ToggleNotice(ps[i])
  {
    if ps == [] then []
    else (if ps[0].id == id then [ToggleNotice(ps[0])] else []) + ToggleNotices(ps[1..], id)
  }

  /** The line under the progress ring: either the "all completed" blessing,
      or how many prayers remain and whether "prayer" takes a plural "s". */
  datatype Progress = AllCompleted | Remaining(left: int, plural: bool)

  function ProgressOf(completed: int): (m: Progress)
    ensures m.AllCompleted? <==> completed == 5
    ensures m.Remaining? ==> m.left == 5 - completed && (m.plural <==> m.left > 1)
  {
    if completed == 5 then AllCompleted
    else Remaining(5 - completed, 5 - completed > 1)
  }

  lemma InitialChecklist()
    ensures |InitialPrayers()| == 5
    ensures Ids(InitialPrayers()) == SlotIds
    ensures Distinct(SlotIds)
    ensures CountCompleted(InitialPrayers()) == 3
  {
  }

  /** Toggling flips the matching cards, leaves every other card as it was,
      and keeps the length, the order and every field other than `completed`. */
  lemma ToggleEffect(ps: seq<Prayer>, id: string)
    ensures |Toggle(ps, id)| == |ps|
    ensures Ids(Toggle(ps, id)) == Ids(ps)
    ensures forall i :: 0 <= i < |ps| && ps[i].id == id ==>
      Toggle(ps, id)[i] == ps[i].(completed := !ps[i].completed)
    ensures forall i :: 0 <= i < |ps| && ps[i].id != id ==> Toggle(ps, id)[i] == ps[i]
  {
  }

  /** An unknown id leaves the list as it was. */
  lemma ToggleAbsent(ps: seq<Prayer>, id: string)
    requires id !in Ids(ps)
    ensures Toggle(ps, id) == ps
  {
    forall i | 0 <= i < |ps|
      ensures Toggle(ps, id)[i] == ps[i]
    {
      assert Ids(ps)[i] == ps[i].id;
    }
  }

  /** Toggling the same id twice restores the list. */
  lemma ToggleTwice(ps: seq<Prayer>, id: string)
    ensures Toggle(Toggle(ps, id), id) == ps
  {
  }

  lemma ToggleCons(ps: seq<Prayer>, id: string)
    requires ps != []
    ensures Toggle(ps, id) == [Flip(ps[0], id)] + Toggle(ps[1..], id)
  {
  }

  lemma IdsTail(ps: seq<Prayer>)
    requires ps != []
    ensures Ids(ps) == [ps[0].id] + Ids(ps[1..])
  {
  }

  /** With distinct ids, toggling a present id moves the completed count by exactly one:
      up when that card was open, down when it was ticked. */
  lemma {:induction false} ToggleCount(ps: seq<Prayer>, id: string, k: nat)
    requires Distinct(Ids(ps))
    requires k < |ps| && ps[k].id == id
    ensures CountCompleted(Toggle(ps, id)) == CountCompleted(ps) + (if ps[k].completed then -1 else 1)
  {
    ToggleCons(ps, id);
    IdsTail(ps);
    var r := Toggle(ps, id);
    assert r[1..] == Toggle(ps[1..], id);
    if k == 0 {
      forall i | 0 <= i < |ps[1..]|
        ensures Ids(ps[1..])[i] != id
      {
        assert Ids(ps)[i + 1] != Ids(ps)[0];
      }
      ToggleAbsent(ps[1..], id);
    } else {
      assert Ids(ps)[0] != Ids(ps)[k];
      assert Distinct(Ids(ps[1..])) by {
        forall i, j | 0 <= i < j < |ps[1..]|
          ensures Ids(ps[1..])[i] != Ids(ps[1..])[j]
        {
          assert Ids(ps)[i + 1] != Ids(ps)[j + 1];
        }
      }
      ToggleCount(ps[1..], id, k - 1);
    }
  }

  /** An unknown id shows no toast. */
  lemma {:induction false} NoticesAbsent(ps: seq<Prayer>, id: string)
    requires id !in Ids(ps)
    ensures ToggleNotices(ps, id) == []
  {
    if ps != [] {
      IdsTail(ps);
      NoticesAbsent(ps[1..], id);
    }
  }

  /** With distinct ids, a present id shows exactly the toast for its own card. */
  lemma {:induction false} NoticesOne(ps: seq<Prayer>, id: string, k: nat)
    requires Distinct(Ids(ps))
    requires k < |ps| && ps[k].id == id
    ensures ToggleNotices(ps, id) == [ToggleNotice(ps[k])]
  {
    IdsTail(ps);
    if k == 0 {
      forall i | 0 <= i < |ps[1..]|
        ensures Ids(ps[1..])[i] != id
      {
        assert Ids(ps)[i + 1] != Ids(ps)[0];
      }
      NoticesAbsent(ps[1..], id);
    } else {
      assert Ids(ps)[0] != Ids(ps)[k];
      assert Distinct(Ids(ps[1..])) by {
        forall i, j | 0 <= i < j < |ps[1..]|
          ensures Ids(ps[1..])[i] != Ids(ps[1..])[j]
        {
          assert Ids(ps)[i + 1] != Ids(ps)[j + 1];
        }
      }
      NoticesOne(ps[1..], id, k - 1);
    }
  }

  /** On a five-card list the message is "all completed" exactly when every card is ticked;
      otherwise between one and five prayers remain, and the plural is used for more than one. */
  lemma ProgressOfChecklist(ps: seq<Prayer>)
    requires |ps| == 5
    ensures ProgressOf(CountCompleted(ps)).AllCompleted? <==> forall i :: 0 <= i < 5 ==> ps[i].completed
    ensures ProgressOf(CountCompleted(ps)).Remaining? ==>
      var m := ProgressOf(CountCompleted(ps));
      1 <= m.left <= 5 && m.left == |ps| - CountCompleted(ps) && (m.plural <==> m.left > 1)
  {
  }

  /** The dashboard component's `prayers` state. */
  class Dashboard {
    var prayers: seq<Prayer>

    /** The five slots, in their fixed order; no toggle adds, removes or reorders a card. */
    ghost predicate Valid()
      reads this
    {
      Ids(prayers) == SlotIds
    }

    constructor ()
      ensures Valid()
      ensures prayers == InitialPrayers()
      ensures CompletedCount() == 3
    {
      prayers := InitialPrayers();
      InitialChecklist();
    }

    /** `completedCount` */
    function CompletedCount(): (n: nat)
      reads this
      requires Valid()
      ensures n <= 5
    {
      CountCompleted(prayers)
    }

    /** The "remaining" line, derived from `completedCount`. */
    function ProgressMessage(): (m: Progress)
      reads this
      requires Valid()
      ensures m.AllCompleted? <==> forall i :: 0 <= i < 5 ==> prayers[i].completed
      ensures m.Remaining? ==> m.left == 5 - CompletedCount() && 1 <= m.left <= 5 && (m.plural <==> m.left > 1)
    {
      ProgressOfChecklist(prayers);
      ProgressOf(CountCompleted(prayers))
    }

    /** `togglePrayer(id)`: replaces the list by its toggled copy and returns the toasts shown. */
    method TogglePrayer(id: string) returns (notices: seq<Toast>)
      requires Valid()
      modifies this
      ensures Valid()
      ensures prayers == Toggle(old(prayers), id)
      ensures notices == ToggleNotices(old(prayers), id)
      ensures id !in SlotIds ==> prayers == old(prayers) && notices == []
      ensures forall k :: 0 <= k < 5 && SlotIds[k] == id ==>
        prayers[k].completed == !old(prayers[k].completed) &&
        CompletedCount() == old(CompletedCount()) + (if old(prayers[k].completed) then -1 else 1) &&
        notices == [ToggleNotice(old(prayers[k]))]
    {
      InitialChecklist();
      ghost var before := prayers;
      notices := ToggleNotices(prayers, id);
      prayers := Toggle(prayers, id);
      ToggleEffect(before, id);
      if id !in SlotIds {
        ToggleAbsent(before, id);
        NoticesAbsent(before, id);
      }
      forall k | 0 <= k < 5 && SlotIds[k] == id
        ensures CountCompleted(prayers) == CountCompleted(before) + (if before[k].completed then -1 else 1)
        ensures notices == [ToggleNotice(before[k])]
      {
        assert Ids(before)[k] == before[k].id;
        ToggleCount(before, id, k);
        NoticesOne(before, id, k);
      }
    }
  }
}
