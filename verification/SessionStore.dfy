/** What the operations of `SessionsRepository` do to the keyspace when nothing interrupts
    them, and the exact relation between `TerminateSessions` as it is written and as it
    is meant. */
module SessionStore {
  import opened Models
  import opened Redis

  // ---------------------------------------------------------------- the store

  /** The shape every write of the repository keeps: a session lives under its own id,
      an account key holds a non-empty set of session ids, and no key is a JSON text. */
  ghost predicate WellFormed(db: Keyspace) {
    forall key :: key in db ==> EntryShape(key, db[key].content)
  }

  ghost predicate EntryShape(key: Text, content: Content) {
    match key
    case Plain(sid) =>
      sid != "" && content.Str? && content.body.Json? && content.body.session.sessionID == sid
    case AccountKey(_) =>
      content.Ids? && content.members != {} &&
      forall id :: id in content.members ==> id.Plain? && id.s != ""
    case Json(_) => false
  }

  /** The session stored under `sid`. */
  function SessionAt(db: Keyspace, sid: string): Session
    requires WellFormed(db) && Plain(sid) in db
  {
    db[Plain(sid)].content.body.session
  }

  predicate Member(db: Keyspace, account: string, sid: string) {
    Plain(sid) in SMembers(db, AccountKey(account))
  }

  predicate Outlives(index: Lifetime, session: Lifetime) {
    index.Forever? || (session.Until? && session.t <= index.t)
  }

  /** The index entry of a live session is there and expires no earlier than the session. */
  ghost predicate Covers(db: Keyspace, sid: string)
    requires WellFormed(db) && Plain(sid) in db
  {
    var account := SessionAt(db, sid).accountID;
    Member(db, account, sid) && Outlives(db[AccountKey(account)].life, db[Plain(sid)].life)
  }

  /** The index of one account covers all its live sessions. */
  ghost predicate AccountCovered(db: Keyspace, account: string)
    requires WellFormed(db)
  {
    forall sid :: Plain(sid) in db && SessionAt(db, sid).accountID == account ==> Covers(db, sid)
  }

  ghost predicate Covered(db: Keyspace)
    requires WellFormed(db)
  {
    forall sid :: Plain(sid) in db ==> Covers(db, sid)
  }

  /** A live session is listed only in the index of its own account. */
  ghost predicate IndexSound(db: Keyspace)
    requires WellFormed(db)
  {
    forall account, sid ::
      Member(db, account, sid) && Plain(sid) in db ==> SessionAt(db, sid).accountID == account
  }

  // ---------------------------------------------------------------- checkSession

  /** `checkSession` when Redis answers. The session id comes from the client and may be any text. */
  function CheckSession(db: Keyspace, key: Text, machine: string): Result<Session> {
    if key !in db then Err(Unauthenticated)
    else if db[key].content.Ids? || !db[key].content.body.Json? then Err(Internal)
    else
      var session := db[key].content.body.session;
      if machine != session.machineID then Err(Unauthenticated) else Ok(session)
  }

  // ---------------------------------------------------------------- SetSession

  function SetSession(db: Keyspace, now: nat, ttl: nat, session: Session): Keyspace {
    var list := AccountKey(session.accountID);
    Expire(SAdd(Set(db, now, ttl, Plain(session.sessionID), Json(session)),
                list, Plain(session.sessionID)),
           now, ttl, list)
  }

  // ---------------------------------------------------------------- removeNonexistantKeys

  datatype Version = AsWritten | Intended

  /** What goes out of the index (`drop`) and what the caller gets back (`keep`). */
  datatype Split = Split(drop: set<Text>, keep: set<Text>)

  function ToSet(keys: seq<Text>): set<Text> {
    set key | key in keys
  }

  /** The keys of the list that hold a string. */
  function Present(db: Keyspace, keys: seq<Text>): set<Text> {
    set key | key in keys && Lookup(db, key).Some?
  }

  /** The strings those keys hold. */
  function Bodies(db: Keyspace, keys: seq<Text>): set<Text> {
    set key | key in keys && Lookup(db, key).Some? :: Lookup(db, key).value
  }

  /** `toRemove`: the listed keys that are not among the bodies, behind the empty strings it starts with. */
  function ToRemove(keys: seq<Text>, found: set<Text>): set<Text> {
    {Plain("")} + (ToSet(keys) - found)
  }

  /** As written, the lookup set holds the bodies found, the result is that set, and
      `toRemove` starts with empty strings; as meant, ids are looked up and ids are returned. */
  function SplitKeys(version: Version, db: Keyspace, keys: seq<Text>): Split {
    match version
    case Intended => Split(ToSet(keys) - Present(db, keys), Present(db, keys))
    case AsWritten =>
      var found := Bodies(db, keys);
      if |keys| == |found| then Split({}, ToSet(keys))
      else Split(ToRemove(keys, found), found)
  }

  ghost predicate NoDuplicates(keys: seq<Text>) {
    forall i, j :: 0 <= i < j < |keys| ==> keys[i] != keys[j]
  }

  ghost predicate AllPresent(db: Keyspace, keys: seq<Text>) {
    forall key :: key in keys ==> Lookup(db, key).Some?
  }

  ghost predicate NonePresent(db: Keyspace, keys: seq<Text>) {
    forall key :: key in keys ==> Lookup(db, key).None?
  }

  /** The lists on which the code does what it is meant to do. */
  ghost predicate Uniform(db: Keyspace, keys: seq<Text>) {
    (NoDuplicates(keys) && AllPresent(db, keys)) || NonePresent(db, keys)
  }

  lemma OneMoreKey(keys: seq<Text>, last: Text)
    ensures NoDuplicates(keys + [last]) <==> NoDuplicates(keys) && last !in keys
  {
    var longer := keys + [last];
    assert longer[|keys|] == last && forall i :: 0 <= i < |keys| ==> longer[i] == keys[i];
    if NoDuplicates(longer) {
      forall i, j | 0 <= i < j < |keys| ensures keys[i] != keys[j] {
        assert longer[i] != longer[j];
      }
    }
  }

  /** A body carries its own key: it is found twice only if the key is listed twice. */
  lemma SameBodySameKey(db: Keyspace, keys: seq<Text>, last: Text)
    requires WellFormed(db) && Lookup(db, last).Some?
    ensures Lookup(db, last).value in Bodies(db, keys) <==> last in keys
  {
    var body := Lookup(db, last).value;
    assert EntryShape(last, db[last].content);
    if body in Bodies(db, keys) {
      var key :| key in keys && Lookup(db, key).Some? && Lookup(db, key).value == body;
      assert EntryShape(key, db[key].content);
    }
  }

  lemma OneMoreBody(db: Keyspace, keys: seq<Text>, last: Text)
    ensures Bodies(db, keys + [last])
         == if Lookup(db, last).Some? then Bodies(db, keys) + {Lookup(db, last).value} else Bodies(db, keys)
    ensures AllPresent(db, keys + [last]) <==> AllPresent(db, keys) && Lookup(db, last).Some?
  {
    assert last in keys + [last];
  }

  /** The code's length test asks whether every listed key is live and listed once. */
  lemma {:induction false} LengthTest(db: Keyspace, keys: seq<Text>)
    requires WellFormed(db)
    ensures |Bodies(db, keys)| <= |keys|
    ensures |Bodies(db, keys)| == |keys| <==> NoDuplicates(keys) && AllPresent(db, keys)
  {
    if keys == [] {
      assert Bodies(db, keys) == {};
    } else {
      var init, last := keys[..|keys| - 1], keys[|keys| - 1];
      assert keys == init + [last];
      LengthTest(db, init);
      OneMoreBody(db, init, last);
      OneMoreKey(init, last);
      if Lookup(db, last).Some? { SameBodySameKey(db, init, last); }
    }
  }

  /** The exact result of `removeNonexistantKeys` as written, on every list of ids. */
  lemma FilterAsWritten(db: Keyspace, keys: seq<Text>)
    requires WellFormed(db)
    ensures var split := SplitKeys(AsWritten, db, keys);
      if NoDuplicates(keys) && AllPresent(db, keys) then
        split == Split({}, ToSet(keys))
      else
        && Plain("") in split.drop
        && (forall key :: key in split.drop && key != Plain("") <==>
                          key in keys && key != Plain("") && !(key.Json? && key in split.keep))
        && (forall body :: body in split.keep <==>
              body.Json? && Plain(body.session.sessionID) in keys &&
              Lookup(db, Plain(body.session.sessionID)) == Some(body))
  {
    LengthTest(db, keys);
    var found := Bodies(db, keys);
    forall body ensures body in found <==>
                        body.Json? && Plain(body.session.sessionID) in keys &&
                        Lookup(db, Plain(body.session.sessionID)) == Some(body)
    {
      if body in found {
        var key :| key in keys && Lookup(db, key).Some? && Lookup(db, key).value == body;
        assert EntryShape(key, db[key].content);
      }
    }
  }

  /** The partition is the meant one exactly on uniform lists: each listed id once and live, or none live. */
  lemma PartitionIff(db: Keyspace, keys: seq<Text>)
    requires WellFormed(db)
    ensures var w, i := SplitKeys(AsWritten, db, keys), SplitKeys(Intended, db, keys);
      (w.keep == i.keep && w.drop - {Plain("")} == i.drop - {Plain("")}) <==> Uniform(db, keys)
  {
    FilterAsWritten(db, keys);
    var w, i := SplitKeys(AsWritten, db, keys), SplitKeys(Intended, db, keys);
    if NoDuplicates(keys) && AllPresent(db, keys) {
      assert i.keep == ToSet(keys);
    } else if NonePresent(db, keys) {
      assert i.keep == {};
      forall body ensures body !in w.keep {}
      assert w.keep == {};
    } else {
      var key :| key in keys && Lookup(db, key).Some?;
      assert key in i.keep;
      assert EntryShape(key, db[key].content);
      assert key !in w.keep;
    }
  }

  // ---------------------------------------------------------------- TerminateSessions

  function DropListed(db: Keyspace, account: string, drop: set<Text>): Keyspace {
    if drop == {} then db else SRem(db, AccountKey(account), drop)
  }

  function DeleteKept(db: Keyspace, account: string, keep: set<Text>): Keyspace {
    if keep == {} then db else SRem(Del(db, keep), AccountKey(account), keep)
  }

  function Terminate(version: Version, db: Keyspace, account: string, ids: seq<Text>): Keyspace {
    var split := SplitKeys(version, db, ids);
    DeleteKept(DropListed(db, account, split.drop), account, split.keep)
  }

  /** `after` is `before` without the listed sessions and with the listed ids taken out of
      the account's index; nothing else differs, and no index set is deleted as a key. */
  ghost predicate ExactlyTerminated(before: Keyspace, after: Keyspace, account: string, ids: seq<Text>) {
    var list := AccountKey(account);
    && (forall key :: key != list ==>
          (key in after <==> key in before && !(key in ids && before[key].content.Str?)))
    && (forall key :: key != list && key in after ==> after[key] == before[key])
    && SMembers(after, list) == SMembers(before, list) - ToSet(ids)
    && (list in after <==> list in before && !(SMembers(before, list) <= ToSet(ids)))
    && (list in after ==> after[list].life == before[list].life && after[list].content.Ids?)
  }

  lemma SRemEffect(db: Keyspace, key: Text, ids: set<Text>)
    requires key in db ==> db[key].content.Ids? && db[key].content.members != {}
    ensures var after := SRem(db, key, ids);
      && (forall k :: k != key ==> (k in after <==> k in db))
      && (forall k :: k != key && k in after ==> after[k] == db[k])
      && SMembers(after, key) == SMembers(db, key) - ids
      && (key in after <==> SMembers(db, key) - ids != {})
      && (key in after ==> key in db && after[key].life == db[key].life && after[key].content.Ids?)
  {
  }

  /** The keys other than the list: exactly the listed strings go. */
  lemma TerminateOthers(db: Keyspace, account: string, ids: seq<Text>, key: Text)
    requires key != AccountKey(account)
    ensures var after := Terminate(Intended, db, account, ids);
      (key in after <==> key in db && !(key in ids && db[key].content.Str?)) &&
      (key in after ==> after[key] == db[key])
  {
    var split := SplitKeys(Intended, db, ids);
    assert key in split.keep <==> key in ids && Lookup(db, key).Some?;
    var mid := DropListed(db, account, split.drop);
    assert key in mid <==> key in db;
    assert key in Del(mid, split.keep) <==> key in db && key !in split.keep;
  }

  /** The list of the account: exactly the listed ids go, and with the last of them the list. */
  lemma TerminateIndex(db: Keyspace, account: string, ids: seq<Text>)
    requires WellFormed(db)
    ensures var after, list := Terminate(Intended, db, account, ids), AccountKey(account);
      SMembers(after, list) == SMembers(db, list) - ToSet(ids) &&
      (list in after <==> SMembers(db, list) - ToSet(ids) != {}) &&
      (list in after ==> list in db && after[list].life == db[list].life && after[list].content.Ids?)
  {
    var list := AccountKey(account);
    var split := SplitKeys(Intended, db, ids);
    assert list in db ==> EntryShape(list, db[list].content);
    SRemEffect(db, list, split.drop);
    var mid := DropListed(db, account, split.drop);
    assert SMembers(mid, list) == SMembers(db, list) - split.drop;
    assert list !in split.keep;
    SRemEffect(Del(mid, split.keep), list, split.keep);
    assert SMembers(db, list) - ToSet(ids) == SMembers(db, list) - split.drop - split.keep;
    if split.keep == {} { assert SMembers(mid, list) - split.keep == SMembers(mid, list); }
  }

  lemma TerminateExact(db: Keyspace, account: string, ids: seq<Text>)
    requires WellFormed(db)
    ensures ExactlyTerminated(db, Terminate(Intended, db, account, ids), account, ids)
  {
    var list := AccountKey(account);
    forall key | key != list
      ensures var after := Terminate(Intended, db, account, ids);
        (key in after <==> key in db && !(key in ids && db[key].content.Str?)) &&
        (key in after ==> after[key] == db[key])
    {
      TerminateOthers(db, account, ids, key);
    }
    TerminateIndex(db, account, ids);
    assert SMembers(db, list) - ToSet(ids) == {} <==> SMembers(db, list) <= ToSet(ids) by {
      SubsetIff(SMembers(db, list), ToSet(ids));
    }
    assert list in db ==> EntryShape(list, db[list].content);
  }

  lemma SubsetIff(a: set<Text>, b: set<Text>)
    ensures a - b == {} <==> a <= b
  {
    if a - b == {} {
      forall x | x in a ensures x in b { assert x !in a - b; }
    }
  }

  /** Two stores that relate to the same store in that way are equal. */
  lemma ExactlyTerminatedUnique(db: Keyspace, a: Keyspace, b: Keyspace, account: string, ids: seq<Text>)
    requires ExactlyTerminated(db, a, account, ids) && ExactlyTerminated(db, b, account, ids)
    ensures a == b
  {
    var list := AccountKey(account);
    forall key ensures key in a <==> key in b {
      if key == list {}
    }
    forall key | key in a ensures a[key] == b[key] {
      if key == list {
        assert a[list].content == Ids(SMembers(a, list));
        assert b[list].content == Ids(SMembers(b, list));
      }
    }
  }

  /** With a stale or repeated id beside a live one, the code deletes no session at all. */
  lemma MixedListDeletesNothing(db: Keyspace, account: string, ids: seq<Text>)
    requires WellFormed(db) && !Uniform(db, ids)
    ensures Terminate(AsWritten, db, account, ids)
         == DropListed(db, account, SplitKeys(AsWritten, db, ids).drop)
    ensures forall key: Text :: key.Plain? ==> (key in Terminate(AsWritten, db, account, ids) <==> key in db)
  {
    FilterAsWritten(db, ids);
    var split := SplitKeys(AsWritten, db, ids);
    var list := AccountKey(account);
    var mid := DropListed(db, account, split.drop);
    assert forall key :: key in split.keep ==> key.Json?;
    forall key | key in mid ensures !key.Json? { assert EntryShape(key, db[key].content); }
    assert Del(mid, split.keep) == mid;
    if list in mid && mid[list].content.Ids? {
      assert EntryShape(list, db[list].content);
      var left := mid[list].content.members - split.keep;
      forall id | id in mid[list].content.members ensures id !in split.keep {
        assert id in db[list].content.members;
      }
      assert left == mid[list].content.members;
      assert left != {};
    }
    assert SRem(mid, list, split.keep) == mid;
  }

  /** Taking the same members out of a list, and nothing else, gives the same store. */
  lemma SameDrop(db: Keyspace, account: string, a: set<Text>, b: set<Text>)
    requires WellFormed(db) && a != {} && b != {}
    requires SMembers(db, AccountKey(account)) - a == SMembers(db, AccountKey(account)) - b
    ensures DropListed(db, account, a) == DropListed(db, account, b)
  {
  }

  lemma StaleAgrees(db: Keyspace, account: string, ids: seq<Text>)
    requires WellFormed(db) && ids != [] && NonePresent(db, ids)
    ensures Terminate(AsWritten, db, account, ids) == Terminate(Intended, db, account, ids)
  {
    var w, i := SplitKeys(AsWritten, db, ids), SplitKeys(Intended, db, ids);
    PartitionIff(db, ids);
    assert Bodies(db, ids) == {} && i.keep == {};
    assert ids[0] in i.drop && Plain("") in w.drop;
    var list := AccountKey(account);
    assert list in db ==> EntryShape(list, db[list].content);
    assert SMembers(db, list) - w.drop == SMembers(db, list) - i.drop;
    SameDrop(db, account, w.drop, i.drop);
  }

  /** On a uniform list the code as written and the code as meant do the same. */
  lemma UniformAgrees(db: Keyspace, account: string, ids: seq<Text>)
    requires WellFormed(db) && Uniform(db, ids)
    ensures Terminate(AsWritten, db, account, ids) == Terminate(Intended, db, account, ids)
  {
    if NoDuplicates(ids) && AllPresent(db, ids) {
      FilterAsWritten(db, ids);
      var i := SplitKeys(Intended, db, ids);
      assert i.keep == ToSet(ids) && i.drop == {};
    } else {
      StaleAgrees(db, account, ids);
    }
  }

  /** `TerminateSessions` as written has its meant effect if and only if the list is uniform. */
  lemma TerminateIff(db: Keyspace, account: string, ids: seq<Text>)
    requires WellFormed(db)
    ensures ExactlyTerminated(db, Terminate(AsWritten, db, account, ids), account, ids)
       <==> Uniform(db, ids)
  {
    if Uniform(db, ids) {
      TerminateExact(db, account, ids);
      UniformAgrees(db, account, ids);
    } else {
      MixedListDeletesNothing(db, account, ids);
      var key :| key in ids && Lookup(db, key).Some?;
      assert EntryShape(key, db[key].content);
      assert key in Terminate(AsWritten, db, account, ids);
    }
  }

  ghost predicate Shrunk(before: Content, after: Content) {
    after == before ||
    (before.Ids? && after.Ids? && after.members != {} && after.members <= before.members)
  }

  /** Removing sessions and index members keeps the store well formed. */
  lemma ShrinkingKeepsShape(db: Keyspace, after: Keyspace)
    requires WellFormed(db)
    requires forall key :: key in after ==> key in db && Shrunk(db[key].content, after[key].content)
    ensures WellFormed(after)
  {
    forall key | key in after ensures EntryShape(key, after[key].content) {
      assert EntryShape(key, db[key].content);
    }
  }

  lemma UniformListKeepsCoverage(db: Keyspace, account: string, ids: seq<Text>, after: Keyspace)
    requires WellFormed(db) && Covered(db)
    requires ExactlyTerminated(db, after, account, ids)
    ensures WellFormed(after) && Covered(after)
  {
    var list := AccountKey(account);
    if list in after {
      assert EntryShape(list, db[list].content);
      assert after[list].content.members == SMembers(after, list) == SMembers(db, list) - ToSet(ids);
      var id :| id in SMembers(db, list) && id !in ToSet(ids);
      assert id in after[list].content.members;
      assert Shrunk(db[list].content, after[list].content);
    }
    ShrinkingKeepsShape(db, after);
    forall sid | Plain(sid) in after ensures Covers(after, sid) {
      assert Covers(db, sid);
      assert EntryShape(Plain(sid), db[Plain(sid)].content);
      assert Plain(sid) !in ToSet(ids);
    }
  }

  /** Taking ids out of an index loses coverage exactly if one of them is a live session listed there. */
  lemma DroppingCoverage(db: Keyspace, account: string, drop: set<Text>)
    requires WellFormed(db) && IndexSound(db) && Covered(db)
    ensures var after := DropListed(db, account, drop);
      WellFormed(after) &&
      (Covered(after) <==>
       forall sid :: Plain(sid) in drop && Plain(sid) in db ==> SessionAt(db, sid).accountID != account)
  {
    var list := AccountKey(account);
    var after := DropListed(db, account, drop);
    assert list in db ==> EntryShape(list, db[list].content);
    SRemEffect(db, list, drop);
    ShrinkingKeepsShape(db, after);
    if sid :| Plain(sid) in drop && Plain(sid) in db && SessionAt(db, sid).accountID == account {
      assert !Member(after, account, sid);
      assert !Covers(after, sid);
    } else {
      forall sid | Plain(sid) in after ensures Covers(after, sid) {
        assert Covers(db, sid);
      }
    }
  }

  lemma MixedListCoverage(db: Keyspace, account: string, ids: seq<Text>)
    requires WellFormed(db) && IndexSound(db) && Covered(db) && !Uniform(db, ids)
    ensures WellFormed(Terminate(AsWritten, db, account, ids))
    ensures Covered(Terminate(AsWritten, db, account, ids)) <==>
            forall sid :: Plain(sid) in ids && Plain(sid) in db ==> SessionAt(db, sid).accountID != account
  {
    var drop := SplitKeys(AsWritten, db, ids).drop;
    MixedListDeletesNothing(db, account, ids);
    FilterAsWritten(db, ids);
    DroppingCoverage(db, account, drop);
    forall sid | Plain(sid) in db ensures Plain(sid) in drop <==> Plain(sid) in ids {
      assert EntryShape(Plain(sid), db[Plain(sid)].content);
    }
  }

  /** What the code as written does to a live session that a mixed list names: it survives, unlisted. */
  lemma MixedListUnlistsLive(db: Keyspace, account: string, ids: seq<Text>, sid: string)
    requires WellFormed(db) && !Uniform(db, ids) && Plain(sid) in ids && Plain(sid) in db
    ensures var after := Terminate(AsWritten, db, account, ids);
      Plain(sid) in after && after[Plain(sid)] == db[Plain(sid)] && !Member(after, account, sid)
  {
    MixedListDeletesNothing(db, account, ids);
    FilterAsWritten(db, ids);
    assert EntryShape(Plain(sid), db[Plain(sid)].content);
    var list := AccountKey(account);
    assert list in db ==> EntryShape(list, db[list].content);
    SRemEffect(db, list, SplitKeys(AsWritten, db, ids).drop);
  }

  /** Starting from a covered store, the code as written leaves a live session outside its
      index exactly when the list is mixed and names a live session of this very account. */
  lemma CoverageIff(db: Keyspace, account: string, ids: seq<Text>)
    requires WellFormed(db) && IndexSound(db) && Covered(db)
    ensures WellFormed(Terminate(AsWritten, db, account, ids))
    ensures Covered(Terminate(AsWritten, db, account, ids)) <==>
            Uniform(db, ids) ||
            forall sid :: Plain(sid) in ids && Plain(sid) in db ==> SessionAt(db, sid).accountID != account
  {
    if Uniform(db, ids) {
      TerminateIff(db, account, ids);
      UniformListKeepsCoverage(db, account, ids, Terminate(AsWritten, db, account, ids));
    } else {
      MixedListCoverage(db, account, ids);
    }
  }

  // ---------------------------------------------------------------- TerminateAllSessions

  function TerminateAll(db: Keyspace, account: string): Keyspace {
    var ids := SMembers(db, AccountKey(account));
    if ids == {} then db else Del(Del(db, ids), {AccountKey(account)})
  }

  /** With a sound and covering index, exactly the account's sessions and its index go. */
  lemma TerminateAllExact(db: Keyspace, account: string)
    requires WellFormed(db) && IndexSound(db) && AccountCovered(db, account)
    ensures var after := TerminateAll(db, account);
      && (forall key :: key in after <==>
            key in db && key != AccountKey(account) &&
            !(key.Plain? && SessionAt(db, key.s).accountID == account))
      && (forall key :: key in after ==> after[key] == db[key])
  {
    var list := AccountKey(account);
    var after := TerminateAll(db, account);
    assert list in db ==> EntryShape(list, db[list].content);
    forall key | key in db && key != list
      ensures key in SMembers(db, list) <==> key.Plain? && SessionAt(db, key.s).accountID == account
    {
      assert EntryShape(key, db[key].content);
      if key.Plain? {
        assert SessionAt(db, key.s).accountID == account ==> Covers(db, key.s);
        assert key in SMembers(db, list) <==> Member(db, account, key.s);
      } else {
        assert key !in SMembers(db, list);
      }
    }
  }

  // ---------------------------------------------------------------- GetSessionsForAccount

  function ListOf(db: Keyspace, ids: set<Text>): map<string, SessionInfo>
    requires WellFormed(db)
  {
    map sid | sid in (set id | id in ids && id.Plain? && id in db :: id.s) :: InfoOf(SessionAt(db, sid))
  }

  /** SMEMBERS, then MGET of what it returned; MGET without keys is an error. */
  function Listing(db: Keyspace, account: string): Result<map<string, SessionInfo>>
    requires WellFormed(db)
  {
    var ids := SMembers(db, AccountKey(account));
    if ids == {} then Err(Internal) else Ok(ListOf(db, ids))
  }

  /** The listing is the simple thing the index speeds up: all live sessions of the account. */
  lemma ListingExact(db: Keyspace, account: string)
    requires WellFormed(db) && IndexSound(db) && AccountCovered(db, account)
    ensures (exists sid :: Plain(sid) in db && SessionAt(db, sid).accountID == account) ==>
              Listing(db, account).Ok?
    ensures Listing(db, account).Ok? ==>
              var sessions := Listing(db, account).value;
              (forall sid :: sid in sessions <==> Plain(sid) in db && SessionAt(db, sid).accountID == account) &&
              (forall sid :: sid in sessions ==>
                 sessions[sid].clientIP == SessionAt(db, sid).clientIP &&
                 sessions[sid].machineID == SessionAt(db, sid).machineID &&
                 sessions[sid].lastActivity == SessionAt(db, sid).lastActivity)
  {
    var ids := SMembers(db, AccountKey(account));
    forall sid | Plain(sid) in db
      ensures Plain(sid) in ids <==> SessionAt(db, sid).accountID == account
    {
      assert SessionAt(db, sid).accountID == account ==> Covers(db, sid);
      assert Plain(sid) in ids <==> Member(db, account, sid);
    }
    if ids != {} {
      var sessions := ListOf(db, ids);
      forall sid ensures sid in sessions <==> Plain(sid) in db && SessionAt(db, sid).accountID == account {
        if Plain(sid) in db && SessionAt(db, sid).accountID == account {
          assert Plain(sid) in ids && Plain(sid).Plain?;
        }
      }
    }
  }
}
