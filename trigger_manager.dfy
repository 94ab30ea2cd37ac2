/**
 * The trigger cog of triggers/trigger_manager.py: a table of trigger rows, the
 * cache of (trigger, compiled pattern) pairs rebuilt from it oldest first, and
 * the message handler that answers with the response of the first trigger
 * whose pattern is found in the message.
 *
 * The regular-expression engine is not modelled: a compiled pattern keeps its
 * source text, and searching is a function `search` handed to the handler.
 */
module TriggerManager {
  import opened Text

  /** A row of the trigger table; `createdAt` is the clock reading taken when the row object was made. */
  datatype TriggerEntity = TriggerEntity(
    mode: string,
    userPattern: string,
    response: string,
    cooldown: int,
    ignoreCase: bool,
    usesWildcards: bool,
    regexPattern: string,
    createdAt: nat)

  /** A compiled regular expression, known by its source text. */
  datatype Pattern = Compiled(source: string)

  function Compile(regexPattern: string): Pattern {
    Compiled(regexPattern)
  }

  datatype CachedTrigger = CachedTrigger(trigger: TriggerEntity, pattern: Pattern)

  function Entities(cache: seq<CachedTrigger>): (rows: seq<TriggerEntity>)
    ensures |rows| == |cache| && forall i :: 0 <= i < |cache| ==> rows[i] == cache[i].trigger
  {
    seq(|cache|, i requires 0 <= i < |cache| => cache[i].trigger)
  }

  // ---------------------------------------------------------------------------
  // The table query: rows ordered by creation time
  // ---------------------------------------------------------------------------

  predicate SortedByCreation(rows: seq<TriggerEntity>) {
    forall i, j :: 0 <= i < j < |rows| ==> rows[i].createdAt <= rows[j].createdAt
  }

  predicate CreatedBy(rows: seq<TriggerEntity>, t: nat) {
    forall k :: 0 <= k < |rows| ==> rows[k].createdAt <= t
  }

  lemma SortedAppend(rows: seq<TriggerEntity>, row: TriggerEntity)
    requires SortedByCreation(rows) && CreatedBy(rows, row.createdAt)
    ensures SortedByCreation(rows + [row])
  {
  }

  /** A rearrangement of `rows` plus `row` is created by `t` when they all are. */
  lemma CreatedByPermutation(r: seq<TriggerEntity>, rows: seq<TriggerEntity>, row: TriggerEntity, t: nat)
    requires multiset(r) == multiset(rows) + multiset{row}
    requires CreatedBy(rows, t) && row.createdAt <= t
    ensures CreatedBy(r, t)
  {
    forall k | 0 <= k < |r| ensures r[k].createdAt <= t {
      assert r[k] in multiset(r);
      if r[k] != row {
        assert r[k] in multiset(rows);
        var j :| 0 <= j < |rows| && rows[j] == r[k];
      }
    }
  }

  /** Puts `row` after every row created no later than it. */
  function InsertByCreation(row: TriggerEntity, sorted: seq<TriggerEntity>): (r: seq<TriggerEntity>)
    requires SortedByCreation(sorted)
    ensures SortedByCreation(r)
    ensures multiset(r) == multiset(sorted) + multiset{row}
  {
    if sorted == [] then [row]
    else
      var init, last := sorted[..|sorted| - 1], sorted[|sorted| - 1];
      assert sorted == init + [last];
      if last.createdAt <= row.createdAt then
        assert SortedByCreation(sorted + [row]) by {
          SortedAppend(sorted, row);
        }
        sorted + [row]
      else
        var front := InsertByCreation(row, init);
        assert SortedByCreation(front + [last]) by {
          CreatedByPermutation(front, init, row, last.createdAt);
          SortedAppend(front, last);
        }
        front + [last]
  }

  /** `SELECT ... ORDER BY created_at`: the rows, oldest first, rows created at the same instant in table order. */
  function OrderByCreation(rows: seq<TriggerEntity>): (r: seq<TriggerEntity>)
    ensures SortedByCreation(r)
    ensures multiset(r) == multiset(rows)
  {
    if rows == [] then []
    else
      assert rows == rows[..|rows| - 1] + [rows[|rows| - 1]];
      InsertByCreation(rows[|rows| - 1], OrderByCreation(rows[..|rows| - 1]))
  }

  /** Pairs each row with its compiled pattern, in order. */
  function CompileAll(ordered: seq<TriggerEntity>): (cache: seq<CachedTrigger>)
    ensures |cache| == |ordered|
    ensures forall i :: 0 <= i < |ordered| ==> cache[i] == CachedTrigger(ordered[i], Compile(ordered[i].regexPattern))
  {
    seq(|ordered|, i requires 0 <= i < |ordered| => CachedTrigger(ordered[i], Compile(ordered[i].regexPattern)))
  }

  /** The cache `_update_triggers` builds from the table. */
  function CacheOf(rows: seq<TriggerEntity>): seq<CachedTrigger> {
    CompileAll(OrderByCreation(rows))
  }

  /** The cache holds one pair per row, oldest first, each pattern compiled from its own row. */
  lemma CacheOfProperties(rows: seq<TriggerEntity>)
    ensures |CacheOf(rows)| == |rows|
    ensures SortedByCreation(Entities(CacheOf(rows)))
    ensures multiset(Entities(CacheOf(rows))) == multiset(rows)
    ensures forall i :: 0 <= i < |CacheOf(rows)| ==> CacheOf(rows)[i].pattern == Compile(CacheOf(rows)[i].trigger.regexPattern)
  {
    var ordered := OrderByCreation(rows);
    assert Entities(CacheOf(rows)) == ordered;
    assert |ordered| == |multiset(ordered)| == |multiset(rows)| == |rows|;
  }

  /** A row created no earlier than every row of the table goes to the end of the ordering. */
  lemma OrderNewest(rows: seq<TriggerEntity>, row: TriggerEntity)
    requires CreatedBy(rows, row.createdAt)
    ensures OrderByCreation(rows + [row]) == OrderByCreation(rows) + [row]
  {
    var ordered := OrderByCreation(rows);
    assert (rows + [row])[..|rows|] == rows;
    if ordered != [] {
      assert CreatedBy(ordered, row.createdAt) by {
        forall k | 0 <= k < |ordered| ensures ordered[k].createdAt <= row.createdAt {
          assert ordered[k] in multiset(rows);
        }
      }
    }
  }

  /** A row created no earlier than every row of the table goes to the end of the cache. */
  lemma CacheOfNewest(rows: seq<TriggerEntity>, row: TriggerEntity)
    requires CreatedBy(rows, row.createdAt)
    ensures CacheOf(rows + [row]) == CacheOf(rows) + [CachedTrigger(row, Compile(row.regexPattern))]
  {
    OrderNewest(rows, row);
    var ordered := OrderByCreation(rows);
    assert CompileAll(ordered + [row]) == CompileAll(ordered) + [CachedTrigger(row, Compile(row.regexPattern))];
  }

  // ---------------------------------------------------------------------------
  // Dispatch: the first trigger whose pattern is found wins
  // ---------------------------------------------------------------------------

  /** Index of the first cached trigger whose pattern `search` finds in `content`. */
  function FirstMatch(cache: seq<CachedTrigger>, content: string, search: (Pattern, string) -> bool): (r: Option<nat>)
    ensures r.Some? ==> r.value < |cache| && search(cache[r.value].pattern, content)
    ensures r.Some? ==> forall j :: 0 <= j < r.value ==> !search(cache[j].pattern, content)
    ensures r.None? ==> forall j :: 0 <= j < |cache| ==> !search(cache[j].pattern, content)
  {
    if cache == [] then None
    else if search(cache[0].pattern, content) then Some(0)
    else
      match FirstMatch(cache[1..], content, search)
      case None => None
      case Some(k) => Some(k + 1)
  }

  /** The pattern of `row`, compiled, is found in `content`. */
  predicate Matches(row: TriggerEntity, content: string, search: (Pattern, string) -> bool) {
    search(Compile(row.regexPattern), content)
  }

  /** `row` is a row of the table that matches, created no later than any other matching row. */
  predicate EarliestMatch(rows: seq<TriggerEntity>, row: TriggerEntity, content: string, search: (Pattern, string) -> bool) {
    row in rows && Matches(row, content, search) &&
    forall other :: other in rows && Matches(other, content, search) ==> row.createdAt <= other.createdAt
  }

  /** The properties of a cache built from `rows` that dispatch relies on. */
  predicate CacheFor(cache: seq<CachedTrigger>, rows: seq<TriggerEntity>) {
    multiset(Entities(cache)) == multiset(rows) &&
    SortedByCreation(Entities(cache)) &&
    forall i :: 0 <= i < |cache| ==> cache[i].pattern == Compile(cache[i].trigger.regexPattern)
  }

  /** Every row of the table sits somewhere in such a cache, next to its own compiled pattern. */
  lemma CachedRow(cache: seq<CachedTrigger>, rows: seq<TriggerEntity>, row: TriggerEntity) returns (j: nat)
    requires CacheFor(cache, rows) && row in rows
    ensures j < |cache| && cache[j].trigger == row && cache[j].pattern == Compile(row.regexPattern)
  {
    var e := Entities(cache);
    assert row in multiset(e);
    j :| 0 <= j < |e| && e[j] == row;
  }

  lemma NoMatchInCache(cache: seq<CachedTrigger>, rows: seq<TriggerEntity>, content: string, search: (Pattern, string) -> bool)
    requires CacheFor(cache, rows)
    requires forall j :: 0 <= j < |cache| ==> !search(cache[j].pattern, content)
    ensures forall row :: row in rows ==> !Matches(row, content, search)
  {
    forall row | row in rows
      ensures !Matches(row, content, search)
    {
      var j := CachedRow(cache, rows, row);
    }
  }

  lemma FirstMatchInCache(cache: seq<CachedTrigger>, rows: seq<TriggerEntity>, content: string, search: (Pattern, string) -> bool, k: nat)
    requires CacheFor(cache, rows)
    requires k < |cache| && search(cache[k].pattern, content)
    requires forall j :: 0 <= j < k ==> !search(cache[j].pattern, content)
    ensures EarliestMatch(rows, cache[k].trigger, content, search)
  {
    var row := cache[k].trigger;
    var e := Entities(cache);
    assert row == e[k];
    assert row in multiset(rows) by {
      assert row in multiset(e);
    }
    forall other | other in rows && Matches(other, content, search)
      ensures row.createdAt <= other.createdAt
    {
      var j := CachedRow(cache, rows, other);
      assert k <= j;
      assert e[j] == other;
    }
  }

  /**
   * Dispatch through the cache, read in terms of the table: no trigger fires
   * exactly when no row matches, and the one that fires is a matching row
   * created no later than every other matching row.
   */
  lemma EarliestMatchingRow(rows: seq<TriggerEntity>, content: string, search: (Pattern, string) -> bool)
    ensures FirstMatch(CacheOf(rows), content, search).None? <==>
              forall row :: row in rows ==> !Matches(row, content, search)
    ensures FirstMatch(CacheOf(rows), content, search).Some? ==>
              EarliestMatch(rows, CacheOf(rows)[FirstMatch(CacheOf(rows), content, search).value].trigger, content, search)
  {
    var cache := CacheOf(rows);
    CacheOfProperties(rows);
    assert CacheFor(cache, rows);
    match FirstMatch(cache, content, search)
    case None =>
      NoMatchInCache(cache, rows, content, search);
    case Some(k) =>
      FirstMatchInCache(cache, rows, content, search, k);
  }

  /** The fields of a row that dispatch depends on. */
  datatype DispatchFields = DispatchFields(regexPattern: string, response: string, createdAt: nat)

  function View(row: TriggerEntity): DispatchFields {
    DispatchFields(row.regexPattern, row.response, row.createdAt)
  }

  function Views(rows: seq<TriggerEntity>): (views: seq<DispatchFields>)
    ensures |views| == |rows| && forall i :: 0 <= i < |rows| ==> views[i] == View(rows[i])
  {
    seq(|rows|, i requires 0 <= i < |rows| => View(rows[i]))
  }

  /** `InsertByCreation` seen through the dispatch fields. */
  function InsertView(v: DispatchFields, views: seq<DispatchFields>): seq<DispatchFields> {
    if views == [] then [v]
    else if views[|views| - 1].createdAt <= v.createdAt then views + [v]
    else InsertView(v, views[..|views| - 1]) + [views[|views| - 1]]
  }

  /** `OrderByCreation` seen through the dispatch fields. */
  function OrderViews(views: seq<DispatchFields>): seq<DispatchFields> {
    if views == [] then []
    else InsertView(views[|views| - 1], OrderViews(views[..|views| - 1]))
  }

  lemma ViewsAppend(rows: seq<TriggerEntity>, row: TriggerEntity)
    ensures Views(rows + [row]) == Views(rows) + [View(row)]
  {
  }

  lemma ViewsPrefix(rows: seq<TriggerEntity>, k: nat)
    requires k <= |rows|
    ensures Views(rows[..k]) == Views(rows)[..k]
  {
  }

  lemma {:induction false} InsertCommutes(row: TriggerEntity, sorted: seq<TriggerEntity>)
    requires SortedByCreation(sorted)
    ensures Views(InsertByCreation(row, sorted)) == InsertView(View(row), Views(sorted))
  {
    if sorted != [] {
      var n := |sorted|;
      ViewsPrefix(sorted, n - 1);
      if sorted[n - 1].createdAt <= row.createdAt {
        ViewsAppend(sorted, row);
      } else {
        InsertCommutes(row, sorted[..n - 1]);
        ViewsAppend(InsertByCreation(row, sorted[..n - 1]), sorted[n - 1]);
      }
    }
  }

  lemma {:induction false} OrderCommutes(rows: seq<TriggerEntity>)
    ensures Views(OrderByCreation(rows)) == OrderViews(Views(rows))
  {
    if rows != [] {
      var n := |rows|;
      ViewsPrefix(rows, n - 1);
      OrderCommutes(rows[..n - 1]);
      InsertCommutes(rows[n - 1], OrderByCreation(rows[..n - 1]));
    }
  }

  lemma {:induction false} FirstMatchSamePatterns(c1: seq<CachedTrigger>, c2: seq<CachedTrigger>, content: string, search: (Pattern, string) -> bool)
    requires |c1| == |c2| && forall i :: 0 <= i < |c1| ==> c1[i].pattern == c2[i].pattern
    ensures FirstMatch(c1, content, search) == FirstMatch(c2, content, search)
  {
    if c1 != [] {
      FirstMatchSamePatterns(c1[1..], c2[1..], content, search);
    }
  }

  /**
   * Which trigger answers, and with what text, depends only on the rows'
   * patterns, responses and creation times: mode, user pattern, cooldown,
   * ignore_case and uses_wildcards are never read.
   */
  lemma DispatchIgnoresOtherFields(rows1: seq<TriggerEntity>, rows2: seq<TriggerEntity>, content: string, search: (Pattern, string) -> bool)
    requires Views(rows1) == Views(rows2)
    ensures FirstMatch(CacheOf(rows1), content, search) == FirstMatch(CacheOf(rows2), content, search)
    ensures match FirstMatch(CacheOf(rows1), content, search)
            case None => true
            case Some(k) => CacheOf(rows1)[k].trigger.response == CacheOf(rows2)[k].trigger.response
  {
    OrderCommutes(rows1);
    OrderCommutes(rows2);
    var o1, o2 := OrderByCreation(rows1), OrderByCreation(rows2);
    assert Views(o1) == Views(o2);
    var c1, c2 := CacheOf(rows1), CacheOf(rows2);
    forall i | 0 <= i < |c1|
      ensures c1[i].pattern == c2[i].pattern && c1[i].trigger.response == c2[i].trigger.response
    {
      assert View(o1[i]) == Views(o1)[i] == Views(o2)[i] == View(o2[i]);
    }
    FirstMatchSamePatterns(c1, c2, content, search);
  }

  // ---------------------------------------------------------------------------
  // The cog
  // ---------------------------------------------------------------------------

  /** The row `create_test_trigger` saves, made at clock reading `now`. */
  function TestTrigger(now: nat): TriggerEntity {
    TriggerEntity("word", "d?ck", "Pattern matched!", 0, true, true, "(?i)d.ck", now)
  }

  class TriggerCog {
    /** The rows of the trigger table, in the order they were saved. */
    var table: seq<TriggerEntity>
    /** The cache of (trigger, compiled pattern) pairs, oldest trigger first. */
    var triggers: seq<CachedTrigger>

    ghost predicate Valid()
      reads this
    {
      triggers == CacheOf(table)
    }

    /** Builds the cache from the table, then saves the test trigger (made at `now`) and rebuilds it. */
    constructor (existing: seq<TriggerEntity>, now: nat)
      ensures table == existing + [TestTrigger(now)]
      ensures Valid()
    {
      table := existing;
      triggers := [];
      new;
      UpdateTriggers();
      CreateTestTrigger(now);
    }

    /** `_update_triggers`: replaces the cache with the table's rows, oldest first, each with its compiled pattern. */
    method UpdateTriggers()
      modifies this`triggers
      ensures triggers == CacheOf(table)
    {
      var raw := OrderByCreation(table);
      var cache: seq<CachedTrigger> := [];
      var i := 0;
      while i < |raw|
        invariant 0 <= i <= |raw|
        invariant |cache| == i
        invariant forall k :: 0 <= k < i ==> cache[k] == CachedTrigger(raw[k], Compile(raw[k].regexPattern))
      {
        cache := cache + [CachedTrigger(raw[i], Compile(raw[i].regexPattern))];
        i := i + 1;
      }
      assert cache == CompileAll(raw);
      triggers := cache;
    }

    /** `create_test_trigger`: saves one new row, then rebuilds the cache. */
    method CreateTestTrigger(now: nat)
      requires Valid()
      modifies this
      ensures table == old(table) + [TestTrigger(now)]
      ensures Valid()
      ensures |triggers| == |old(triggers)| + 1
      ensures TestTrigger(now) in Entities(triggers)
      ensures CreatedBy(old(table), now) ==>
                triggers == old(triggers) + [CachedTrigger(TestTrigger(now), Compile("(?i)d.ck"))]
    {
      CacheOfProperties(table);
      table := table + [TestTrigger(now)];
      UpdateTriggers();
      CacheOfProperties(table);
      assert TestTrigger(now) in multiset(table);
      assert TestTrigger(now) in multiset(Entities(triggers));
      if CreatedBy(old(table), now) {
        CacheOfNewest(old(table), TestTrigger(now));
      }
    }

    /**
     * `on_message`: scans the cache in order and sends the response of the
     * first trigger whose pattern is found in the content, then stops.
     * `sent` lists the messages sent to the channel.
     */
    method OnMessage(content: string, search: (Pattern, string) -> bool) returns (sent: seq<string>)
      requires Valid()
      ensures |sent| <= 1
      ensures match FirstMatch(triggers, content, search)
              case None => sent == []
              case Some(k) => sent == [triggers[k].trigger.response]
      ensures sent == [] <==> forall row :: row in table ==> !Matches(row, content, search)
      ensures sent != [] ==> exists row :: EarliestMatch(table, row, content, search) && sent == [row.response]
    {
      sent := [];
      var i := 0;
      while i < |triggers|
        invariant 0 <= i <= |triggers|
        invariant forall j :: 0 <= j < i ==> !search(triggers[j].pattern, content)
      {
        if search(triggers[i].pattern, content) {
          sent := [triggers[i].trigger.response];
          FirstMatchUnique(triggers, content, search);
          EarliestMatchingRow(table, content, search);
          return;
        }
        i := i + 1;
      }
      EarliestMatchingRow(table, content, search);
    }
  }

  /** The first match is the only index that matches with no match before it. */
  lemma FirstMatchUnique(cache: seq<CachedTrigger>, content: string, search: (Pattern, string) -> bool)
    ensures forall i :: 0 <= i < |cache| && search(cache[i].pattern, content) &&
                        (forall j :: 0 <= j < i ==> !search(cache[j].pattern, content))
                    ==> FirstMatch(cache, content, search) == Some(i)
  {
  }
}
