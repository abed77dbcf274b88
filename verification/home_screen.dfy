/**
  The state of the home screen and its triage handlers. The screen holds the
  suggested reminders, the accepted ("upcoming") reminders and a loading flag;
  each handler runs as one step. `stored` is a ghost view of what the screen last
  handed to on-device storage for the upcoming list (None until it first does).
 */
module HomeScreen {
  import opened ReminderService
  import opened ReminderLists

  class Store {
    var loading: bool
    var suggestions: seq<Reminder>
    var upcoming: seq<Reminder>
    ghost var stored: Option<seq<Reminder>>

    /** A freshly mounted screen: nothing loading, both lists empty, nothing stored yet. */
    constructor ()
      ensures !loading && suggestions == [] && upcoming == [] && stored == None
    {
      loading := false;
      suggestions := [];
      upcoming := [];
      stored := None;
    }

    /**
      Startup restore: a saved list, when storage has one, replaces the upcoming
      list wholesale; when it has none (or reading it failed) nothing changes.
     */
    method RestoreUpcoming(saved: Option<seq<Reminder>>)
      modifies this
      ensures upcoming == if saved.Some? then saved.value else old(upcoming)
      ensures suggestions == old(suggestions) && loading == old(loading)
      ensures stored == old(stored)
    {
      if saved.Some? {
        upcoming := saved.value;
      }
    }

    /** Hands `list` to storage; only the stored snapshot changes. */
    method PersistUpcoming(list: seq<Reminder>)
      modifies this
      ensures stored == Some(list)
      ensures suggestions == old(suggestions) && upcoming == old(upcoming)
      ensures loading == old(loading)
    {
      stored := Some(list);
    }

    /**
      Accepting a suggestion: it joins the upcoming list, which is re-sorted by due
      time and persisted, and every suggestion with its id is dropped. The item need
      not be among the suggestions, and an upcoming entry with the same id is kept.
     */
    method Accept(item: Reminder)
      modifies this
      ensures upcoming == AcceptedUpcoming(old(upcoming), item)
      ensures SortedByWhen(upcoming)
      ensures multiset(upcoming) == multiset(old(upcoming)) + multiset{item}
      ensures stored == Some(upcoming)
      ensures suggestions == RemoveId(old(suggestions), item.id)
      ensures forall i :: 0 <= i < |suggestions| ==> suggestions[i].id != item.id
      ensures loading == old(loading)
    {
      var next := AcceptedUpcoming(upcoming, item);
      PersistUpcoming(next);
      upcoming := next;
      suggestions := RemoveId(suggestions, item.id);
    }

    /** Dismissing drops every suggestion with the id and touches nothing else. */
    method Dismiss(id: string)
      modifies this
      ensures suggestions == RemoveId(old(suggestions), id)
      ensures forall i :: 0 <= i < |suggestions| ==> suggestions[i].id != id
      ensures upcoming == old(upcoming) && stored == old(stored) && loading == old(loading)
    {
      suggestions := RemoveId(suggestions, id);
    }

    /** The start of a refresh: the loading flag goes up before the fetch is awaited. */
    method BeginLoading()
      modifies this
      ensures loading
      ensures suggestions == old(suggestions) && upcoming == old(upcoming)
      ensures stored == old(stored)
    {
      loading := true;
    }

    /**
      The end of a refresh, once the demo source for clock reading `now` has
      settled: when it resolves, the suggestions are replaced wholesale by its
      batch; when it rejects (a due time outside the Date range), they are kept
      and an alert is raised. Either way the loading flag comes down.
     */
    method FinishLoading(now: int) returns (alerted: bool)
      modifies this
      ensures alerted <==> !(-MaxTimeMillis - 2 * HourMillis <= now <= MaxTimeMillis - 24 * HourMillis)
      ensures suggestions == if alerted then old(suggestions) else GenerateRemindersDemo(now)
      ensures !loading
      ensures upcoming == old(upcoming) && stored == old(stored)
    {
      match FetchRemindersDemo(now) {
        case Some(batch) =>
          suggestions := batch;
          alerted := false;
        case None =>
          alerted := true;
      }
      loading := false;
    }

    /** A refresh with nothing interleaved between its start and its end. */
    method LoadSuggestions(now: int) returns (alerted: bool)
      modifies this
      ensures alerted <==> !(-MaxTimeMillis - 2 * HourMillis <= now <= MaxTimeMillis - 24 * HourMillis)
      ensures suggestions == if alerted then old(suggestions) else GenerateRemindersDemo(now)
      ensures !loading
      ensures upcoming == old(upcoming) && stored == old(stored)
    {
      BeginLoading();
      alerted := FinishLoading(now);
    }
  }

  /**
    Accepting the first of three suggestions with distinct ids and then dismissing
    the second leaves only the third suggestion.
   */
  lemma TriageLists(first: Reminder, second: Reminder, third: Reminder)
    requires first.id != second.id && second.id != third.id && first.id != third.id
    ensures RemoveId([first, second, third], first.id) == [second, third]
    ensures RemoveId([second, third], second.id) == [third]
  {
    RemoveIdAppend([first], [second, third], first.id);
    RemoveIdAbsent([second, third], first.id);
    RemoveIdAppend([second], [third], second.id);
    RemoveIdAbsent([third], second.id);
  }

  /**
    A client of the store: refresh, accept the first suggestion, dismiss the
    second; what the contracts above let a caller conclude.
   */
  method TriageScenario(now: int)
    requires 0 <= now <= MaxTimeMillis - 24 * HourMillis
  {
    var store := new Store();
    var alerted := store.LoadSuggestions(now);
    var batch := GenerateRemindersDemo(now);
    var first, second, third := batch[0], batch[1], batch[2];
    assert store.suggestions == [first, second, third];
    DemoIdsDistinct(now);
    TriageLists(first, second, third);
    store.Accept(first);
    SortByWhenOfSorted([first]);
    assert store.suggestions == [second, third];
    store.Dismiss(second.id);
    assert store.suggestions == [third];
    assert store.upcoming == [first] && store.stored == Some([first]);
  }

  /**
    A restore that settles after an accept: the restore sets the upcoming list
    to the saved value outright, so the accepted item drops out of it while the
    store still holds the list that contains it.
   */
  method RestoreAfterAcceptScenario(item: Reminder, saved: seq<Reminder>)
    requires item !in saved
  {
    var store := new Store();
    store.Accept(item);
    SortByWhenOfSorted([item]);
    assert store.stored == Some([item]);
    store.RestoreUpcoming(Some(saved));
    assert store.upcoming == saved && item !in store.upcoming;
    assert store.stored == Some([item]);
  }
}
