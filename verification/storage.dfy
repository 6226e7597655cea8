/** The in-memory storage backend (server/memoryStorage.js): four
    collections and one shared id counter, updated in place.

    `new Date()` is modelled by a `now` argument read from a clock that
    never goes back; the store remembers, as ghost state, the last instant
    it was given. */
module Storage {
  import opened Wrappers
  import opened Seqs

  datatype User = User(id: nat, username: string, password: string, createdAt: nat, updatedAt: nat)
  datatype UserInput = UserInput(username: string, password: string)

  datatype Contact = Contact(id: nat, name: string, email: string, subject: string, message: string,
                             createdAt: nat, updatedAt: nat)
  datatype ContactInput = ContactInput(name: string, email: string, subject: string, message: string)

  datatype Subscriber = Subscriber(id: nat, email: string, createdAt: nat, updatedAt: nat)
  datatype SubscriberInput = SubscriberInput(email: string)

  datatype ProjectStats = ProjectStats(id: nat, projectId: string, stars: int, forks: int, watchers: int,
                                       createdAt: nat, updatedAt: nat)
  datatype StatsInput = StatsInput(projectId: string, stars: int, forks: int, watchers: int)

  /** An error thrown by a storage operation; `code` is the field the
      request handlers inspect. */
  datatype StorageError = StorageError(code: int, message: string)

  /** The code of a duplicate-key error, shared with the document store. */
  const DuplicateKeyCode: int := 11000

  /** What kind of record an issued id went to. */
  datatype Issue = ToUser | ToContact | ToSubscriber | ToStats(projectId: string)

  function UserId(u: User): nat { u.id }
  function UserStamp(u: User): int { u.createdAt }
  function ContactId(c: Contact): nat { c.id }
  function ContactStamp(c: Contact): int { c.createdAt }
  function SubscriberId(s: Subscriber): nat { s.id }
  function SubscriberStamp(s: Subscriber): int { s.createdAt }

  /** A collection appended to in creation order: each record's id was
      issued to that collection, ids increase and creation times never
      decrease along the sequence, and none is later than `last`. */
  ghost predicate RecordsValid<T>(rs: seq<T>, id: T -> nat, stamp: T -> int, tag: Issue,
                                  issued: seq<Issue>, last: int)
  {
    && (forall i :: 0 <= i < |rs| ==> 1 <= id(rs[i]) <= |issued| && issued[id(rs[i]) - 1] == tag)
    && (forall i :: 0 <= i < |rs| ==> stamp(rs[i]) <= last)
    && (forall i, j :: 0 <= i < j < |rs| ==> id(rs[i]) < id(rs[j]) && stamp(rs[i]) <= stamp(rs[j]))
  }

  /** Issuing an id elsewhere, at a later instant, keeps a collection valid. */
  lemma RecordsExtend<T>(rs: seq<T>, id: T -> nat, stamp: T -> int, tag: Issue,
                         issued: seq<Issue>, last: int, other: Issue, now: int)
    requires RecordsValid(rs, id, stamp, tag, issued, last) && now >= last
    ensures RecordsValid(rs, id, stamp, tag, issued + [other], now)
  {
    var issued' := issued + [other];
    assert forall k :: 0 <= k < |issued| ==> issued'[k] == issued[k];
  }

  /** Appending a record under the next id, created now, keeps it valid. */
  lemma RecordsPush<T>(rs: seq<T>, id: T -> nat, stamp: T -> int, tag: Issue,
                       issued: seq<Issue>, last: int, r: T, now: int)
    requires RecordsValid(rs, id, stamp, tag, issued, last) && now >= last
    requires id(r) == |issued| + 1 && stamp(r) == now
    ensures RecordsValid(rs + [r], id, stamp, tag, issued + [tag], now)
  {
    var issued' := issued + [tag];
    var rs' := rs + [r];
    assert forall k :: 0 <= k < |issued| ==> issued'[k] == issued[k];
    assert forall i :: 0 <= i < |rs| ==> rs'[i] == rs[i];
  }

  /** The stats map: each entry is keyed by its own projectId and carries an
      id issued to it; `order` lists the keys once each. */
  ghost predicate StatsValid(stats: map<string, ProjectStats>, order: seq<string>, issued: seq<Issue>)
  {
    && (forall p :: p in stats ==>
          && stats[p].projectId == p
          && 1 <= stats[p].id <= |issued|
          && issued[stats[p].id - 1] == ToStats(p))
    && Distinct(order)
    && (forall p :: p in order <==> p in stats)
  }

  lemma StatsExtend(stats: map<string, ProjectStats>, order: seq<string>, issued: seq<Issue>, other: Issue)
    requires StatsValid(stats, order, issued)
    ensures StatsValid(stats, order, issued + [other])
  {
    var issued' := issued + [other];
    assert forall k :: 0 <= k < |issued| ==> issued'[k] == issued[k];
  }

  lemma StatsUpsert(stats: map<string, ProjectStats>, order: seq<string>, issued: seq<Issue>, r: ProjectStats)
    requires StatsValid(stats, order, issued)
    requires r.id == |issued| + 1
    ensures StatsValid(stats[r.projectId := r],
                       if r.projectId in stats then order else order + [r.projectId],
                       issued + [ToStats(r.projectId)])
  {
    var issued' := issued + [ToStats(r.projectId)];
    assert forall k :: 0 <= k < |issued| ==> issued'[k] == issued[k];
  }

  predicate HasEmail(subs: seq<Subscriber>, email: string) {
    exists i :: 0 <= i < |subs| && subs[i].email == email
  }

  /** No two subscribers share an email address (exact comparison). */
  predicate EmailsDistinct(subs: seq<Subscriber>) {
    forall i, j :: 0 <= i < j < |subs| ==> subs[i].email != subs[j].email
  }

  /** Appending an address not yet present keeps the addresses distinct. */
  lemma EmailsPush(subs: seq<Subscriber>, s: Subscriber)
    requires EmailsDistinct(subs) && !HasEmail(subs, s.email)
    ensures EmailsDistinct(subs + [s])
  {
    var subs' := subs + [s];
    assert forall i :: 0 <= i < |subs| ==> subs'[i] == subs[i];
  }

  /** The store's invariant, on the values of its fields. */
  ghost predicate StoreValid(users: seq<User>, contacts: seq<Contact>, subs: seq<Subscriber>,
                             stats: map<string, ProjectStats>, order: seq<string>, nextId: nat,
                             issued: seq<Issue>, upserted: set<string>, last: nat)
  {
    && nextId == |issued| + 1
    && RecordsValid(users, UserId, UserStamp, ToUser, issued, last)
    && RecordsValid(contacts, ContactId, ContactStamp, ToContact, issued, last)
    && RecordsValid(subs, SubscriberId, SubscriberStamp, ToSubscriber, issued, last)
    && StatsValid(stats, order, issued)
    && EmailsDistinct(subs)
    && upserted == stats.Keys
  }

  lemma UserPushValid(users: seq<User>, contacts: seq<Contact>, subs: seq<Subscriber>,
                      stats: map<string, ProjectStats>, order: seq<string>, nextId: nat,
                      issued: seq<Issue>, upserted: set<string>, last: nat, u: User, now: nat)
    requires StoreValid(users, contacts, subs, stats, order, nextId, issued, upserted, last)
    requires now >= last && u.id == nextId && u.createdAt == now
    ensures StoreValid(users + [u], contacts, subs, stats, order, nextId + 1, issued + [ToUser], upserted, now)
  {
    RecordsPush(users, UserId, UserStamp, ToUser, issued, last, u, now);
    RecordsExtend(contacts, ContactId, ContactStamp, ToContact, issued, last, ToUser, now);
    RecordsExtend(subs, SubscriberId, SubscriberStamp, ToSubscriber, issued, last, ToUser, now);
    StatsExtend(stats, order, issued, ToUser);
  }

  lemma ContactPushValid(users: seq<User>, contacts: seq<Contact>, subs: seq<Subscriber>,
                         stats: map<string, ProjectStats>, order: seq<string>, nextId: nat,
                         issued: seq<Issue>, upserted: set<string>, last: nat, c: Contact, now: nat)
    requires StoreValid(users, contacts, subs, stats, order, nextId, issued, upserted, last)
    requires now >= last && c.id == nextId && c.createdAt == now
    ensures StoreValid(users, contacts + [c], subs, stats, order, nextId + 1, issued + [ToContact], upserted, now)
  {
    RecordsExtend(users, UserId, UserStamp, ToUser, issued, last, ToContact, now);
    RecordsPush(contacts, ContactId, ContactStamp, ToContact, issued, last, c, now);
    RecordsExtend(subs, SubscriberId, SubscriberStamp, ToSubscriber, issued, last, ToContact, now);
    StatsExtend(stats, order, issued, ToContact);
  }

  lemma SubscriberPushValid(users: seq<User>, contacts: seq<Contact>, subs: seq<Subscriber>,
                            stats: map<string, ProjectStats>, order: seq<string>, nextId: nat,
                            issued: seq<Issue>, upserted: set<string>, last: nat, sub: Subscriber, now: nat)
    requires StoreValid(users, contacts, subs, stats, order, nextId, issued, upserted, last)
    requires now >= last && sub.id == nextId && sub.createdAt == now && !HasEmail(subs, sub.email)
    ensures StoreValid(users, contacts, subs + [sub], stats, order, nextId + 1, issued + [ToSubscriber], upserted, now)
  {
    RecordsExtend(users, UserId, UserStamp, ToUser, issued, last, ToSubscriber, now);
    RecordsExtend(contacts, ContactId, ContactStamp, ToContact, issued, last, ToSubscriber, now);
    RecordsPush(subs, SubscriberId, SubscriberStamp, ToSubscriber, issued, last, sub, now);
    StatsExtend(stats, order, issued, ToSubscriber);
    EmailsPush(subs, sub);
  }

  lemma StatsUpsertValid(users: seq<User>, contacts: seq<Contact>, subs: seq<Subscriber>,
                         stats: map<string, ProjectStats>, order: seq<string>, nextId: nat,
                         issued: seq<Issue>, upserted: set<string>, last: nat, r: ProjectStats, now: nat)
    requires StoreValid(users, contacts, subs, stats, order, nextId, issued, upserted, last)
    requires now >= last && r.id == nextId
    ensures StoreValid(users, contacts, subs, stats[r.projectId := r],
                       if r.projectId in stats then order else order + [r.projectId],
                       nextId + 1, issued + [ToStats(r.projectId)], upserted + {r.projectId}, now)
  {
    var tag := ToStats(r.projectId);
    RecordsExtend(users, UserId, UserStamp, ToUser, issued, last, tag, now);
    RecordsExtend(contacts, ContactId, ContactStamp, ToContact, issued, last, tag, now);
    RecordsExtend(subs, SubscriberId, SubscriberStamp, ToSubscriber, issued, last, tag, now);
    StatsUpsert(stats, order, issued, r);
  }

  class MemoryStorage {
    var users: seq<User>
    var contacts: seq<Contact>
    var blogSubscribers: seq<Subscriber>
    /** The JavaScript Map keyed by projectId: its entries, and the order
        in which its keys were first inserted (the order `values()` uses). */
    var projectStats: map<string, ProjectStats>
    var statsOrder: seq<string>
    var nextId: nat

    /** issued[k] says which record received id k + 1. */
    ghost var issued: seq<Issue>
    /** Every projectId ever passed to UpdateProjectStats. */
    ghost var upserted: set<string>
    /** The latest instant the clock has shown this store. */
    ghost var lastStamp: nat

    ghost predicate Valid()
      reads this
    {
      StoreValid(users, contacts, blogSubscribers, projectStats, statsOrder, nextId, issued, upserted, lastStamp)
    }

    /** Every live record carries its own id: no id is shared between two
        collections, nor between two entries of the stats map. */
    lemma IdsPairwiseDistinct()
      requires Valid()
      ensures forall i, j :: 0 <= i < |users| && 0 <= j < |contacts| ==> users[i].id != contacts[j].id
      ensures forall i, j :: 0 <= i < |users| && 0 <= j < |blogSubscribers| ==> users[i].id != blogSubscribers[j].id
      ensures forall i, j :: 0 <= i < |contacts| && 0 <= j < |blogSubscribers| ==>
                contacts[i].id != blogSubscribers[j].id
      ensures forall i, p :: 0 <= i < |users| && p in projectStats ==> users[i].id != projectStats[p].id
      ensures forall i, p :: 0 <= i < |contacts| && p in projectStats ==> contacts[i].id != projectStats[p].id
      ensures forall i, p :: 0 <= i < |blogSubscribers| && p in projectStats ==>
                blogSubscribers[i].id != projectStats[p].id
      ensures forall p, q :: p in projectStats && q in projectStats && p != q ==>
                projectStats[p].id != projectStats[q].id
    {
    }

    /** A project id is in the key order exactly when it has an entry. */
    lemma KeysInOrder()
      requires Valid()
      ensures forall p :: p in statsOrder <==> p in projectStats
    {
    }

    constructor ()
      ensures Valid()
      ensures users == [] && contacts == [] && blogSubscribers == []
      ensures projectStats == map[] && statsOrder == [] && nextId == 1
    {
      users, contacts, blogSubscribers := [], [], [];
      projectStats, statsOrder := map[], [];
      nextId := 1;
      issued, upserted, lastStamp := [], {}, 0;
    }

    /** The first user with the given id, or nothing. */
    method GetUser(id: nat) returns (r: Option<User>)
      ensures r.Some? ==> exists k :: 0 <= k < |users| && users[k] == r.value
      ensures r.Some? ==> r.value.id == id
      ensures r.None? <==> forall k :: 0 <= k < |users| ==> users[k].id != id
    {
      var k := FirstWhere(users, (u: User) => u.id == id);
      r := if k.Some? then Some(users[k.value]) else None;
    }

    /** The first user with the given username, or nothing; usernames are
        not unique in this store, so the earliest one wins. */
    method GetUserByUsername(username: string) returns (r: Option<User>)
      ensures r.Some? ==> exists k :: 0 <= k < |users| && users[k] == r.value
                                     && forall j :: 0 <= j < k ==> users[j].username != username
      ensures r.Some? ==> r.value.username == username
      ensures r.None? <==> forall k :: 0 <= k < |users| ==> users[k].username != username
    {
      var k := FirstWhere(users, (u: User) => u.username == username);
      r := if k.Some? then Some(users[k.value]) else None;
    }

    /** Appends a user under the next id; no check on the username. */
    method CreateUser(data: UserInput, now: nat) returns (user: User)
      requires Valid() && now >= lastStamp
      modifies this
      ensures Valid() && lastStamp == now
      ensures user == User(old(nextId), data.username, data.password, now, now)
      ensures users == old(users) + [user] && nextId == old(nextId) + 1
      ensures contacts == old(contacts) && blogSubscribers == old(blogSubscribers)
      ensures projectStats == old(projectStats) && statsOrder == old(statsOrder)
    {
      user := User(nextId, data.username, data.password, now, now);
      UserPushValid(users, contacts, blogSubscribers, projectStats, statsOrder, nextId, issued, upserted, lastStamp, user, now);
      issued, nextId, lastStamp, users := issued + [ToUser], nextId + 1, now, users + [user];
    }

    /** Appends a contact message under the next id. */
    method CreateContact(data: ContactInput, now: nat) returns (contact: Contact)
      requires Valid() && now >= lastStamp
      modifies this
      ensures Valid() && lastStamp == now
      ensures contact == Contact(old(nextId), data.name, data.email, data.subject, data.message, now, now)
      ensures contacts == old(contacts) + [contact] && nextId == old(nextId) + 1
      ensures users == old(users) && blogSubscribers == old(blogSubscribers)
      ensures projectStats == old(projectStats) && statsOrder == old(statsOrder)
    {
      contact := Contact(nextId, data.name, data.email, data.subject, data.message, now, now);
      ContactPushValid(users, contacts, blogSubscribers, projectStats, statsOrder, nextId, issued, upserted, lastStamp, contact, now);
      issued, nextId, lastStamp, contacts := issued + [ToContact], nextId + 1, now, contacts + [contact];
    }

    /** A copy of the contacts, newest first. */
    method GetContacts() returns (r: seq<Contact>)
      ensures multiset(r) == multiset(contacts)
      ensures NewestFirst(r, ContactStamp)
      ensures forall t :: WithKey(r, ContactStamp, t) == WithKey(contacts, ContactStamp, t)
    {
      r := SortNewestFirst(contacts, ContactStamp);
      SortNewestFirstCorrect(contacts, ContactStamp);
      forall t ensures WithKey(r, ContactStamp, t) == WithKey(contacts, ContactStamp, t) {
        SortNewestFirstStable(contacts, ContactStamp, t);
      }
    }

    /** Appends a subscriber under the next id, unless one with the same
        email exists: then it fails with the duplicate-key code and nothing
        changes. */
    method CreateBlogSubscriber(data: SubscriberInput, now: nat) returns (r: Result<Subscriber, StorageError>)
      requires Valid() && now >= lastStamp
      modifies this
      ensures Valid()
      ensures HasEmail(old(blogSubscribers), data.email) ==>
                && r == Err(StorageError(DuplicateKeyCode, "Email already subscribed"))
                && blogSubscribers == old(blogSubscribers) && nextId == old(nextId)
                && lastStamp == old(lastStamp)
      ensures !HasEmail(old(blogSubscribers), data.email) ==>
                && r == Ok(Subscriber(old(nextId), data.email, now, now))
                && blogSubscribers == old(blogSubscribers) + [r.value] && nextId == old(nextId) + 1
                && lastStamp == now
      ensures users == old(users) && contacts == old(contacts)
      ensures projectStats == old(projectStats) && statsOrder == old(statsOrder)
    {
      var existing := FirstWhere(blogSubscribers, (s: Subscriber) => s.email == data.email);
      if existing.Some? {
        return Err(StorageError(DuplicateKeyCode, "Email already subscribed"));
      }
      assert !HasEmail(blogSubscribers, data.email);
      var subscriber := Subscriber(nextId, data.email, now, now);
      SubscriberPushValid(users, contacts, blogSubscribers, projectStats, statsOrder, nextId, issued, upserted, lastStamp,
                          subscriber, now);
      issued, nextId, lastStamp, blogSubscribers := issued + [ToSubscriber], nextId + 1, now, blogSubscribers + [subscriber];
      r := Ok(subscriber);
    }

    /** A copy of the subscribers, newest first. */
    method GetBlogSubscribers() returns (r: seq<Subscriber>)
      ensures multiset(r) == multiset(blogSubscribers)
      ensures NewestFirst(r, SubscriberStamp)
      ensures forall t :: WithKey(r, SubscriberStamp, t) == WithKey(blogSubscribers, SubscriberStamp, t)
    {
      r := SortNewestFirst(blogSubscribers, SubscriberStamp);
      SortNewestFirstCorrect(blogSubscribers, SubscriberStamp);
      forall t ensures WithKey(r, SubscriberStamp, t) == WithKey(blogSubscribers, SubscriberStamp, t) {
        SortNewestFirstStable(blogSubscribers, SubscriberStamp, t);
      }
    }

    method GetProjectStats(projectId: string) returns (r: Option<ProjectStats>)
      requires Valid()
      ensures r.Some? <==> projectId in upserted
      ensures r.Some? ==> r.value == projectStats[projectId] && r.value.projectId == projectId
    {
      r := if projectId in projectStats then Some(projectStats[projectId]) else None;
    }

    /** Upsert by projectId: the whole record is replaced by a new one under
        the next id; a key seen for the first time joins the key order. */
    method UpdateProjectStats(data: StatsInput, now: nat) returns (stats: ProjectStats)
      requires Valid() && now >= lastStamp
      modifies this
      ensures Valid() && lastStamp == now
      ensures stats == ProjectStats(old(nextId), data.projectId, data.stars, data.forks, data.watchers, now, now)
      ensures projectStats == old(projectStats)[data.projectId := stats] && nextId == old(nextId) + 1
      ensures statsOrder == if data.projectId in old(projectStats) then old(statsOrder)
                            else old(statsOrder) + [data.projectId]
      ensures upserted == old(upserted) + {data.projectId}
      ensures users == old(users) && contacts == old(contacts) && blogSubscribers == old(blogSubscribers)
    {
      stats := ProjectStats(nextId, data.projectId, data.stars, data.forks, data.watchers, now, now);
      ghost var tag := ToStats(data.projectId);
      var order := if data.projectId in projectStats then statsOrder else statsOrder + [data.projectId];
      StatsUpsertValid(users, contacts, blogSubscribers, projectStats, statsOrder, nextId, issued, upserted, lastStamp,
                       stats, now);
      issued, nextId, lastStamp, statsOrder, projectStats, upserted :=
        issued + [tag], nextId + 1, now, order, projectStats[data.projectId := stats], upserted + {data.projectId};
    }

    /** The stored stats records in key-insertion order: one per projectId
        ever upserted. */
    method GetAllProjectStats() returns (r: seq<ProjectStats>)
      requires Valid()
      ensures |r| == |statsOrder| == |upserted|
      ensures forall i :: 0 <= i < |r| ==> r[i] == projectStats[statsOrder[i]]
      ensures forall p :: p in projectStats ==> projectStats[p] in r
    {
      var order, stats := statsOrder, projectStats;
      r := seq(|order|, i requires 0 <= i < |order| => stats[order[i]]);
      DistinctCard(statsOrder);
      assert (set x | x in statsOrder) == upserted;
      forall p | p in projectStats ensures projectStats[p] in r {
        var i :| 0 <= i < |statsOrder| && statsOrder[i] == p;
        assert r[i] == projectStats[p];
      }
    }
  }
}
