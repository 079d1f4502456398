/** The Redis commands the repositories issue, over one keyspace.
    A key whose lifetime has passed is removed when the clock moves (`Purge`), so an
    expired key and an absent key are the same thing for every command. */
module Redis {
  import opened Models

  /** A Go string as this program can meet it: the key `"account_" + id` of an account's
      session list, the JSON text of a session, or any other text. The three kinds are
      disjoint and JSON is injective, which is all that is assumed about the encoding. */
  datatype Text = Plain(s: string) | AccountKey(account: string) | Json(session: Session)

  datatype Lifetime = Forever | Until(t: nat)

  datatype Content = Str(body: Text) | Ids(members: set<Text>)

  datatype Entry = Entry(content: Content, life: Lifetime)

  type Keyspace = map<Text, Entry>

  function Set(db: Keyspace, now: nat, ttl: nat, key: Text, body: Text): Keyspace {
    db[key := Entry(Str(body), Until(now + ttl))]
  }

  /** One position of an MGET reply: nil for a missing key and for a key that holds a set. */
  function Lookup(db: Keyspace, key: Text): Option<Text> {
    if key in db && db[key].content.Str? then Some(db[key].content.body) else None
  }

  function MGet(db: Keyspace, keys: seq<Text>): (r: seq<Option<Text>>)
    ensures |r| == |keys| && forall i :: 0 <= i < |keys| ==> r[i] == Lookup(db, keys[i])
  {
    seq(|keys|, i requires 0 <= i < |keys| => Lookup(db, keys[i]))
  }

  /** SADD keeps the lifetime of a set that exists; a new set has none. On a string it is an error. */
  function SAdd(db: Keyspace, key: Text, member: Text): Keyspace {
    if key !in db then db[key := Entry(Ids({member}), Forever)]
    else if db[key].content.Ids? then
      db[key := Entry(Ids(db[key].content.members + {member}), db[key].life)]
    else db
  }

  /** SREM: a set that becomes empty vanishes. */
  function SRem(db: Keyspace, key: Text, members: set<Text>): Keyspace {
    if key in db && db[key].content.Ids? then
      var left := db[key].content.members - members;
      if left == {} then db - {key} else db[key := Entry(Ids(left), db[key].life)]
    else db
  }

  function Expire(db: Keyspace, now: nat, ttl: nat, key: Text): Keyspace {
    if key in db then db[key := Entry(db[key].content, Until(now + ttl))] else db
  }

  function Del(db: Keyspace, keys: set<Text>): Keyspace {
    db - keys
  }

  function SMembers(db: Keyspace, key: Text): set<Text> {
    if key in db && db[key].content.Ids? then db[key].content.members else {}
  }

  predicate Expired(life: Lifetime, now: nat) {
    life.Until? && life.t <= now
  }

  /** The keyspace once the clock shows `now`. */
  function Purge(db: Keyspace, now: nat): Keyspace {
    map key | key in db && !Expired(db[key].life, now) :: db[key]
  }
}
