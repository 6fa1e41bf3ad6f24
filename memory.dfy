/**
 * Session memory (mcp_server/server/memory.py): the queries each session
 * has asked, and when each session was last touched. Sessions untouched
 * for more than 24 hours are purged, as a side effect of reading a
 * history. The two module-level dictionaries are the fields of a
 * `SessionStore`; the clock is the `now` parameter, in microseconds.
 */
module Memory {
  import opened Wrappers

  /** One stored query and when it was stored. */
  datatype Entry = Entry(query: string, timestamp: int)

  /** `_SESSION_EXPIRY`: 24 hours, in microseconds. */
  const SESSION_EXPIRY: int := 24 * 60 * 60 * 1000000

  /** A session is expired when it was touched strictly more than 24 hours before `now`. */
  predicate Expired(timestamp: int, now: int)
  {
    now - timestamp > SESSION_EXPIRY
  }

  /** The sessions `_cleanup_expired_sessions` removes. */
  function ExpiredSessions(timestamps: map<string, int>, now: int): (expired: set<string>)
    ensures forall id :: id in expired <==> id in timestamps && Expired(timestamps[id], now)
  {
    set id | id in timestamps && Expired(timestamps[id], now)
  }

  /** A session's entries, none for an unknown one (`dict.get(id, [])`). */
  function EntriesOf(memory: map<string, seq<Entry>>, id: string): seq<Entry>
  {
    if id in memory then memory[id] else []
  }

  /** The query texts of some entries, oldest first. */
  function Queries(entries: seq<Entry>): (queries: seq<string>)
    ensures |queries| == |entries| && forall i :: 0 <= i < |entries| ==> queries[i] == entries[i].query
  {
    seq(|entries|, i requires 0 <= i < |entries| => entries[i].query)
  }

  /**
   * `s[-k:] if k else s`: with no limit or a zero limit, everything; with a
   * positive limit, the last `k` (all when there are fewer); with a
   * negative limit, Python's slice drops the first `-k` instead.
   */
  function Recent<T>(s: seq<T>, maxQueries: Option<int>): (r: seq<T>)
    ensures |r| <= |s| && r == s[|s| - |r|..]
    ensures maxQueries.None? || maxQueries.value == 0 ==> r == s
    ensures maxQueries.Some? && maxQueries.value > 0 ==>
      |r| == if maxQueries.value < |s| then maxQueries.value else |s|
    ensures maxQueries.Some? && maxQueries.value < 0 ==>
      |r| == if -maxQueries.value < |s| then |s| + maxQueries.value else 0
  {
    if maxQueries.None? || maxQueries.value == 0 then s
    else
      var k := maxQueries.value;
      var start := if k > 0 then (if k < |s| then |s| - k else 0) else (if -k < |s| then -k else |s|);
      s[start..]
  }

  /** The two dictionaries hold the same sessions. */
  predicate SameSessions(memory: map<string, seq<Entry>>, timestamps: map<string, int>)
  {
    memory.Keys == timestamps.Keys
  }

  /**
   * Cleanup removes exactly the expired sessions from both dictionaries,
   * keeps every other session with its entries and timestamp, and keeps
   * the two dictionaries holding the same sessions.
   */
  lemma CleanupRemovesExactlyExpired(memory: map<string, seq<Entry>>, timestamps: map<string, int>, now: int)
    requires SameSessions(memory, timestamps)
    ensures var expired := ExpiredSessions(timestamps, now);
      && SameSessions(memory - expired, timestamps - expired)
      && (forall id :: id in memory - expired <==> id in memory && !Expired(timestamps[id], now))
      && (forall id :: id in memory - expired ==> (memory - expired)[id] == memory[id])
      && (forall id :: id in timestamps - expired ==> (timestamps - expired)[id] == timestamps[id])
  {
  }

  /** A session touched exactly 24 hours ago survives cleanup; one touched a microsecond earlier does not. */
  lemma ExpiryBoundary(timestamps: map<string, int>, id: string, now: int)
    requires id in timestamps
    ensures timestamps[id] == now - SESSION_EXPIRY ==> id !in ExpiredSessions(timestamps, now)
    ensures timestamps[id] == now - SESSION_EXPIRY - 1 ==> id in ExpiredSessions(timestamps, now)
  {
  }

  /** Deleting one more pending key: removing `id` from what is left of `m` is removing it along with the rest. */
  lemma RemoveOneMore<V>(m: map<string, V>, removed: set<string>, id: string)
    requires id !in removed
    ensures (m - removed) - {id} == m - (removed + {id})
    ensures id !in m ==> m - removed == m - (removed + {id})
  {
  }

  /** Removing no key leaves a map as it was. */
  lemma RemoveNothing<V>(m: map<string, V>)
    ensures m - {} == m
  {
  }

  /** The session memory of one server process. */
  class SessionStore {
    /** `_session_memory`: each session's entries, oldest first. */
    var memory: map<string, seq<Entry>>
    /** `_session_timestamps`: when each session last stored a query. */
    var timestamps: map<string, int>

    predicate Valid()
      reads this
    {
      SameSessions(memory, timestamps)
    }

    constructor ()
      ensures memory == map[] && timestamps == map[]
      ensures Valid()
    {
      memory := map[];
      timestamps := map[];
    }

    /**
     * `store_query`: an empty session id changes nothing; otherwise the
     * query is appended as the session's newest entry and the session is
     * touched. Other sessions are unchanged.
     */
    method StoreQuery(sessionId: string, query: string, now: int)
      modifies this
      ensures sessionId == "" ==> memory == old(memory) && timestamps == old(timestamps)
      ensures sessionId != "" ==>
        && memory == old(memory)[sessionId := EntriesOf(old(memory), sessionId) + [Entry(query, now)]]
        && timestamps == old(timestamps)[sessionId := now]
      ensures old(Valid()) ==> Valid()
    {
      if sessionId == "" {
        return;
      }
      if sessionId !in memory {
        memory := memory[sessionId := []];
      }
      memory := memory[sessionId := memory[sessionId] + [Entry(query, now)]];
      timestamps := timestamps[sessionId := now];
    }

    /** `_cleanup_expired_sessions`: delete every expired session from both dictionaries, one at a time. */
    method CleanupExpiredSessions(now: int)
      modifies this
      ensures memory == old(memory) - ExpiredSessions(old(timestamps), now)
      ensures timestamps == old(timestamps) - ExpiredSessions(old(timestamps), now)
      ensures old(Valid()) ==> Valid()
    {
      var expired := ExpiredSessions(timestamps, now);
      ghost var memory0, timestamps0 := memory, timestamps;
      var pending := expired;
      RemoveNothing(memory0);
      RemoveNothing(timestamps0);
      while pending != {}
        invariant pending <= expired
        invariant memory == memory0 - (expired - pending) && timestamps == timestamps0 - (expired - pending)
        decreases |pending|
      {
        var id :| id in pending;
        ghost var removed := expired - pending;
        assert expired - (pending - {id}) == removed + {id};
        RemoveOneMore(memory0, removed, id);
        RemoveOneMore(timestamps0, removed, id);
        if id in memory {
          memory := memory - {id};
        }
        if id in timestamps {
          timestamps := timestamps - {id};
        }
        pending := pending - {id};
      }
    }

    /**
     * `get_query_history`: for an empty or unknown session id, `[]` and no
     * cleanup; otherwise cleanup runs first, then the session's query texts
     * oldest first, cut to the most recent `maxQueries`. A session that
     * was itself expired is gone and answers `[]`.
     */
    method GetQueryHistory(sessionId: string, maxQueries: Option<int>, now: int) returns (queries: seq<string>)
      modifies this
      ensures sessionId == "" || sessionId !in old(memory) ==>
        queries == [] && memory == old(memory) && timestamps == old(timestamps)
      ensures sessionId != "" && sessionId in old(memory) ==>
        && memory == old(memory) - ExpiredSessions(old(timestamps), now)
        && timestamps == old(timestamps) - ExpiredSessions(old(timestamps), now)
        && queries == Recent(Queries(EntriesOf(memory, sessionId)), maxQueries)
      ensures sessionId in ExpiredSessions(old(timestamps), now) ==> queries == []
      ensures old(Valid()) ==> Valid()
    {
      if sessionId == "" || sessionId !in memory {
        return [];
      }
      CleanupExpiredSessions(now);
      var entries := EntriesOf(memory, sessionId);
      var all := [];
      for i := 0 to |entries|
        invariant all == Queries(entries[..i])
      {
        all := all + [entries[i].query];
      }
      assert entries[..|entries|] == entries;
      queries := Recent(all, maxQueries);
    }

    /** `get_full_history`: like `get_query_history`, but the entries themselves and never cut. */
    method GetFullHistory(sessionId: string, now: int) returns (entries: seq<Entry>)
      modifies this
      ensures sessionId == "" || sessionId !in old(memory) ==>
        entries == [] && memory == old(memory) && timestamps == old(timestamps)
      ensures sessionId != "" && sessionId in old(memory) ==>
        && memory == old(memory) - ExpiredSessions(old(timestamps), now)
        && timestamps == old(timestamps) - ExpiredSessions(old(timestamps), now)
        && entries == EntriesOf(memory, sessionId)
      ensures sessionId in ExpiredSessions(old(timestamps), now) ==> entries == []
      ensures old(Valid()) ==> Valid()
    {
      if sessionId == "" || sessionId !in memory {
        return [];
      }
      CleanupExpiredSessions(now);
      entries := EntriesOf(memory, sessionId);
    }

    /** `clear_session`: forget the session in both dictionaries; nothing happens for an unknown id. */
    method ClearSession(sessionId: string)
      modifies this
      ensures memory == old(memory) - {sessionId} && timestamps == old(timestamps) - {sessionId}
      ensures sessionId !in old(memory) && sessionId !in old(timestamps) ==>
        memory == old(memory) && timestamps == old(timestamps)
      ensures old(Valid()) ==> Valid()
    {
      if sessionId in memory {
        memory := memory - {sessionId};
      }
      if sessionId in timestamps {
        timestamps := timestamps - {sessionId};
      }
    }
  }
}
