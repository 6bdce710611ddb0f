/**
 * The session registry: a process-wide dictionary from a conversation-scope key to the
 * session id sent to the prediction service. Entries are created on first use and never
 * changed or removed afterwards.
 */
module Sessions {
  import opened Wrappers
  import opened PyText

  /** The scope key: the thread id when it is truthy, otherwise `dm-<user>`. */
  function SessionKey(userId: string, threadId: Option<string>): (key: string)
    ensures Truthy(threadId) ==> key == threadId.value
    ensures !Truthy(threadId) ==> HasDmPrefix(key) && key[3..] == userId
  {
    if Truthy(threadId) then threadId.value else "dm-" + userId
  }

  /**
   * A key comes from exactly one scope: a truthy thread id or a user's DM. Two users' DM
   * scopes never share a key, and a thread whose id does not itself start with `dm-`
   * never shares a key with any DM scope.
   */
  lemma ScopeKeysDistinct(u1: string, t1: Option<string>, u2: string, t2: Option<string>)
    requires Truthy(t1) ==> !HasDmPrefix(t1.value)
    requires Truthy(t2) ==> !HasDmPrefix(t2.value)
    ensures SessionKey(u1, t1) == SessionKey(u2, t2) <==>
      if Truthy(t1) || Truthy(t2) then Truthy(t1) && Truthy(t2) && t1.value == t2.value
      else u1 == u2
  {
    if !Truthy(t1) && !Truthy(t2) && SessionKey(u1, t1) == SessionKey(u2, t2) {
      assert u1 == SessionKey(u1, t1)[3..];
    }
    if !Truthy(t1) && Truthy(t2) {
      assert SessionKey(u1, t1)[..3] == "dm-";
    }
    if Truthy(t1) && !Truthy(t2) {
      assert SessionKey(u2, t2)[..3] == "dm-";
    }
  }

  predicate HasDmPrefix(s: string) {
    |s| >= 3 && s[..3] == "dm-"
  }

  /** The session id created for a key on first use: `slack-<key>-<stamp>`. */
  function NewSessionId(key: string, stamp: string): string {
    "slack-" + key + "-" + stamp
  }

  /** Recovers the key from a session id whose stamp has the given width. */
  function KeyOf(id: string, stampWidth: nat): (key: Option<string>)
    ensures key.Some? ==> |id| >= stampWidth && NewSessionId(key.value, id[|id| - stampWidth..]) == id
  {
    if |id| >= 7 + stampWidth && id[..6] == "slack-" && id[|id| - stampWidth - 1] == '-' then
      var key := id[6..|id| - stampWidth - 1];
      assert NewSessionId(key, id[|id| - stampWidth..]) == id;
      Some(key)
    else None
  }

  /** The key is recovered from every session id, given the width of its stamp. */
  lemma KeyOfNewSessionId(key: string, stamp: string)
    ensures KeyOf(NewSessionId(key, stamp), |stamp|) == Some(key)
  {
    var id := NewSessionId(key, stamp);
    assert id[..6] == "slack-";
    assert id[|id| - |stamp| - 1] == '-';
    assert id[6..|id| - |stamp| - 1] == key;
  }

  /** Session ids of different keys differ when their stamps have the same width. */
  lemma NewSessionIdInjective(k1: string, s1: string, k2: string, s2: string)
    requires |s1| == |s2| && k1 != k2
    ensures NewSessionId(k1, s1) != NewSessionId(k2, s2)
  {
    KeyOfNewSessionId(k1, s1);
    KeyOfNewSessionId(k2, s2);
  }

  /** The registry after a lookup, and the id the lookup returned. */
  datatype Resolution = Resolution(sessions: map<string, string>, id: string)

  /**
   * Get-or-create on a pure map. The key ends up present and the returned id is its
   * entry; the domain grows by at most that key; no existing entry changes; a new entry
   * is `slack-<key>-<stamp>`.
   */
  function Resolve(sessions: map<string, string>, key: string, stamp: string): (r: Resolution)
    ensures key in r.sessions && r.id == r.sessions[key]
    ensures r.sessions.Keys == sessions.Keys + {key}
    ensures forall k :: k in sessions ==> r.sessions[k] == sessions[k]
    ensures key !in sessions ==> r.id == NewSessionId(key, stamp)
  {
    if key in sessions then Resolution(sessions, sessions[key])
    else
      var id := NewSessionId(key, stamp);
      Resolution(sessions[key := id], id)
  }

  /**
   * A second lookup of the same key returns the same id and changes nothing, whatever the
   * clock says by then.
   */
  lemma ResolveIdempotent(sessions: map<string, string>, key: string, stamp1: string, stamp2: string)
    ensures var first := Resolve(sessions, key, stamp1);
      Resolve(first.sessions, key, stamp2) == first
  {
  }

  /** A lookup of a key already present returns the stored id and leaves the map as it is. */
  lemma ResolveExisting(sessions: map<string, string>, key: string, stamp: string)
    requires key in sessions
    ensures Resolve(sessions, key, stamp) == Resolution(sessions, sessions[key])
  {
  }

  /** One lookup request: the key and the clock reading at the time of the call. */
  datatype Lookup = Lookup(key: string, stamp: string)

  /** The registry after serving a sequence of lookups in order. */
  function ResolveAll(sessions: map<string, string>, lookups: seq<Lookup>): map<string, string>
    decreases |lookups|
  {
    if lookups == [] then sessions
    else ResolveAll(Resolve(sessions, lookups[0].key, lookups[0].stamp).sessions, lookups[1..])
  }

  /** The map only grows: after any sequence of lookups every earlier entry is still there, unchanged. */
  lemma {:induction false} ResolveAllGrows(sessions: map<string, string>, lookups: seq<Lookup>)
    ensures var after := ResolveAll(sessions, lookups);
      && sessions.Keys <= after.Keys
      && forall k :: k in sessions ==> after[k] == sessions[k]
    decreases |lookups|
  {
    if lookups != [] {
      ResolveAllGrows(Resolve(sessions, lookups[0].key, lookups[0].stamp).sessions, lookups[1..]);
    }
  }

  /** Exactly the looked-up keys are added. */
  lemma {:induction false} ResolveAllKeys(sessions: map<string, string>, lookups: seq<Lookup>)
    ensures ResolveAll(sessions, lookups).Keys
      == sessions.Keys + set i | 0 <= i < |lookups| :: lookups[i].key
    decreases |lookups|
  {
    if lookups != [] {
      var next := Resolve(sessions, lookups[0].key, lookups[0].stamp).sessions;
      ResolveAllKeys(next, lookups[1..]);
      var rest := set i | 0 <= i < |lookups[1..]| :: lookups[1..][i].key;
      var all := set i | 0 <= i < |lookups| :: lookups[i].key;
      assert all == {lookups[0].key} + rest by {
        forall k | k in all ensures k in {lookups[0].key} + rest {
          var i :| 0 <= i < |lookups| && lookups[i].key == k;
          if i > 0 { assert lookups[1..][i - 1].key == k; }
        }
      }
    }
  }

  /**
   * The first lookup of a new key fixes its id for good: after any later lookups the key
   * still maps to `slack-<key>-<stamp of that first call>`.
   */
  lemma FirstStampWins(sessions: map<string, string>, key: string, stamp: string, later: seq<Lookup>)
    requires key !in sessions
    ensures var after := ResolveAll(sessions, [Lookup(key, stamp)] + later);
      key in after && after[key] == NewSessionId(key, stamp)
  {
    var lookups := [Lookup(key, stamp)] + later;
    assert lookups[1..] == later;
    var next := Resolve(sessions, key, stamp).sessions;
    ResolveAllGrows(next, later);
  }

  /**
   * Registry contents are well formed when every stored id is `slack-<key>-<stamp>` for
   * its own key, with `stamps` recording the clock reading used for each key.
   */
  ghost predicate WellFormed(sessions: map<string, string>, stamps: map<string, string>) {
    && sessions.Keys == stamps.Keys
    && forall k :: k in sessions ==> sessions[k] == NewSessionId(k, stamps[k])
  }

  /**
   * In a well-formed registry whose stamps all have one width (as `%Y%m%d%H%M%S` has for
   * four-digit years), no two scopes share a session id.
   */
  lemma DistinctScopesDistinctIds(sessions: map<string, string>, stamps: map<string, string>, k1: string, k2: string)
    requires WellFormed(sessions, stamps)
    requires k1 in sessions && k2 in sessions && k1 != k2
    requires |stamps[k1]| == |stamps[k2]|
    ensures sessions[k1] != sessions[k2]
  {
    NewSessionIdInjective(k1, stamps[k1], k2, stamps[k2]);
  }

  /** The module-level `thread_sessions` dictionary and `get_flowise_session_id` on it. */
  class SessionRegistry {
    var sessions: map<string, string>
    /** The clock reading each entry was created with (bookkeeping for the invariant only). */
    ghost var stamps: map<string, string>

    ghost predicate Valid()
      reads this
    {
      WellFormed(sessions, stamps)
    }

    /** The dictionary starts empty at process start. */
    constructor ()
      ensures Valid() && sessions == map[] && stamps == map[]
    {
      sessions := map[];
      stamps := map[];
    }

    /**
     * `get_flowise_session_id(userId, threadId)` with `stamp` standing for the formatted
     * clock reading. Inserts `slack-<key>-<stamp>` only if the key is new; otherwise
     * returns the stored id and changes nothing.
     */
    method GetSessionId(userId: string, threadId: Option<string>, stamp: string) returns (id: string)
      requires Valid()
      modifies this
      ensures Valid()
      ensures var r := Resolve(old(sessions), SessionKey(userId, threadId), stamp);
        sessions == r.sessions && id == r.id
      ensures var key := SessionKey(userId, threadId);
        stamps == if key in old(stamps) then old(stamps) else old(stamps)[key := stamp]
    {
      var key := if Truthy(threadId) then threadId.value else "dm-" + userId;
      if key !in sessions {
        sessions := sessions[key := "slack-" + key + "-" + stamp];
        stamps := stamps[key := stamp];
      }
      id := sessions[key];
    }
  }
}
