/** The keyed lock pool: one shared entry per key in use, removed with its last user, at most `maxEntries` of them. */
module LockPool {
  import opened Common

  type Key = string

  /** The lock is held by at most one lease; `users` counts the reservations of the key. */
  class LockEntry {
    var users: nat
    var holder: Option<nat>

    constructor ()
      ensures users == 0 && holder.None?
    {
      users, holder := 0, None;
    }
  }

  /** One reserve block that is being executed, from entering to leaving it. */
  datatype Lease = Lease(key: Key, entry: LockEntry)

  lemma SomeUser(users: set<nat>)
    ensures users == {} || exists lease :: lease in users
  {
    if forall lease :: lease !in users {
      assert users == {};
    }
  }

  ghost function Users(leases: map<nat, Lease>, key: Key): set<nat> {
    set lease | lease in leases && leases[lease].key == key
  }

  lemma UserAdded(leases: map<nat, Lease>, lease: nat, key: Key, entry: LockEntry)
    requires lease !in leases
    ensures Users(leases[lease := Lease(key, entry)], key) == Users(leases, key) + {lease}
    ensures |Users(leases[lease := Lease(key, entry)], key)| == |Users(leases, key)| + 1
    ensures forall k :: k != key ==> Users(leases[lease := Lease(key, entry)], k) == Users(leases, k)
  {
    assert Users(leases[lease := Lease(key, entry)], key) == Users(leases, key) + {lease};
  }

  lemma UserRemoved(leases: map<nat, Lease>, lease: nat)
    requires lease in leases
    ensures var key := leases[lease].key;
            && Users(leases - {lease}, key) == Users(leases, key) - {lease}
            && |Users(leases - {lease}, key)| == |Users(leases, key)| - 1
            && forall k :: k != key ==> Users(leases - {lease}, k) == Users(leases, k)
  {
    assert Users(leases - {lease}, leases[lease].key) == Users(leases, leases[lease].key) - {lease};
  }

  class KeyedLockPool {
    const maxEntries: nat
    var entries: map<Key, LockEntry>
    ghost var leases: map<nat, Lease>

    constructor (maxEntries: nat)
      requires maxEntries >= 1
      ensures Valid() && entries == map[] && leases == map[] && this.maxEntries == maxEntries
    {
      this.maxEntries, entries, leases := maxEntries, map[], map[];
    }

    ghost predicate EntryFits(key: Key)
      requires key in entries
      reads this, entries.Values
    {
      var entry, users := entries[key], Users(leases, key);
      && entry.users == |users| > 0
      && (entry.holder.Some? ==> entry.holder.value in users)
    }

    ghost predicate Shared()
      reads this
    {
      && (forall j, k :: j in entries && k in entries && j != k ==> entries[j] != entries[k])
      && (forall lease :: lease in leases ==>
            leases[lease].key in entries && entries[leases[lease].key] == leases[lease].entry)
    }

    ghost predicate Valid()
      reads this, entries.Values
    {
      && |entries| <= maxEntries
      && Shared()
      && forall k :: k in entries ==> EntryFits(k)
    }

    ghost predicate Holds(lease: nat)
      reads this, set l | l in leases :: leases[l].entry
    {
      lease in leases && leases[lease].entry.holder == Some(lease)
    }

    /** At most one lease holds a key, because all leases of a key share its one entry. */
    lemma MutualExclusion(a: nat, b: nat)
      requires Valid() && Holds(a) && Holds(b) && leases[a].key == leases[b].key
      ensures a == b
    {
      assert leases[a].entry == entries[leases[a].key] == leases[b].entry;
    }

    /** A key has an entry exactly while it has users, and there are never more entries than the capacity. */
    lemma EntriesAreInUse(key: Key)
      requires Valid()
      ensures key in entries <==> exists lease :: lease in leases && leases[lease].key == key
      ensures |entries| <= maxEntries
    {
      if key in entries {
        assert EntryFits(key);
        SomeUser(Users(leases, key));
        var lease :| lease in Users(leases, key);
        assert lease in leases && leases[lease].key == key;
      }
    }

    /** Entering reserve: the key's entry is found or made, unless the pool is full. */
    method Reserve(key: Key, ghost lease: nat) returns (entry: Option<LockEntry>)
      requires Valid() && lease !in leases
      modifies this`entries, this`leases, entries.Values`users
      ensures Valid()
      ensures entry.None? <==> key !in old(entries) && |old(entries)| >= maxEntries
      ensures entry.None? ==> entries == old(entries) && leases == old(leases)
      ensures entry.Some? ==> leases == old(leases)[lease := Lease(key, entry.value)] && key in entries && entries[key] == entry.value
      ensures key in old(entries) ==> entries == old(entries)
      ensures entry.Some? && key !in old(entries) ==> fresh(entry.value) && entries == old(entries)[key := entry.value]
    {
      if key in entries {
        AddUser(key, entries[key], lease);
        entry := Some(entries[key]);
      } else if |entries| >= maxEntries {
        entry := None;
      } else {
        var made := AddEntry(key, lease);
        entry := Some(made);
      }
    }

    method AddUser(key: Key, entry: LockEntry, ghost lease: nat)
      requires Valid() && lease !in leases && key in entries && entries[key] == entry
      modifies this`leases, entry`users
      ensures Valid() && leases == old(leases)[lease := Lease(key, entry)]
    {
      UserAdded(leases, lease, key, entry);
      assert EntryFits(key);
      entry.users := entry.users + 1;
      leases := leases[lease := Lease(key, entry)];
      forall k | k in entries
        ensures EntryFits(k)
      {
        assert old(EntryFits(k));
      }
    }

    method AddEntry(key: Key, ghost lease: nat) returns (entry: LockEntry)
      requires Valid() && lease !in leases && key !in entries && |entries| < maxEntries
      modifies this`entries, this`leases
      ensures Valid() && fresh(entry)
      ensures entries == old(entries)[key := entry] && leases == old(leases)[lease := Lease(key, entry)]
    {
      entry := new LockEntry();
      entry.users := 1;
      Insert(key, entry, lease);
    }

    method Insert(key: Key, entry: LockEntry, ghost lease: nat)
      requires Valid() && lease !in leases && key !in entries && |entries| < maxEntries
      requires entry !in entries.Values && entry.users == 1 && entry.holder.None?
      modifies this`entries, this`leases
      ensures Valid()
      ensures entries == old(entries)[key := entry] && leases == old(leases)[lease := Lease(key, entry)]
    {
      NoUser(key);
      UserAdded(leases, lease, key, entry);
      OneMore(entries, key, entry);
      entries := entries[key := entry];
      leases := leases[lease := Lease(key, entry)];
      forall k | k in entries
        ensures EntryFits(k)
      {
        assert k != key ==> old(EntryFits(k));
      }
    }

    static lemma OneMore(entries: map<Key, LockEntry>, key: Key, entry: LockEntry)
      ensures |entries[key := entry]| <= |entries| + 1
    {
      assert entries[key := entry].Keys == entries.Keys + {key};
    }

    lemma NoUser(key: Key)
      requires Shared() && key !in entries
      ensures Users(leases, key) == {}
    {
    }

    /** asyncio.Lock.acquire returns once nobody holds the lock. */
    method Acquire(entry: LockEntry, ghost key: Key, lease: nat)
      requires Valid() && lease in leases && leases[lease] == Lease(key, entry) && entry.holder.None?
      modifies entry`holder
      ensures Valid() && Holds(lease)
    {
      entry.holder := Some(lease);
    }

    method Unlock(entry: LockEntry, ghost key: Key, lease: nat)
      requires Valid() && Holds(lease) && leases[lease] == Lease(key, entry)
      modifies entry`holder
      ensures Valid() && entry.holder.None?
    {
      entry.holder := None;
    }

    /** Leaving reserve, normally or cancelled while waiting: the last user takes the entry along. */
    method Exit(key: Key, entry: LockEntry, ghost lease: nat)
      requires Valid() && lease in leases && leases[lease] == Lease(key, entry) && !Holds(lease)
      modifies this`entries, this`leases, entry`users
      ensures Valid()
      ensures leases == old(leases) - {lease}
      ensures entries == if old(entry.users) == 1 then old(entries) - {key} else old(entries)
    {
      RemoveUser(key, entry, lease);
      if entry.users == 0 && key in entries && entries[key] == entry {
        RemoveEntry(key);
      } else {
        assert EntryFits(key);
      }
    }

    method RemoveEntry(key: Key)
      requires Shared() && |entries| <= maxEntries && |Users(leases, key)| == 0
      requires forall k :: k in entries && k != key ==> EntryFits(k)
      modifies this`entries
      ensures Valid() && entries == old(entries) - {key}
    {
      NobodyLeft(key);
      entries := entries - {key};
      forall k | k in entries
        ensures EntryFits(k)
      {
        assert old(EntryFits(k));
      }
    }

    method RemoveUser(key: Key, entry: LockEntry, ghost lease: nat)
      requires Valid() && lease in leases && leases[lease] == Lease(key, entry) && !Holds(lease)
      modifies this`leases, entry`users
      ensures leases == old(leases) - {lease} && entry.users == old(entry.users) - 1
      ensures Shared() && key in entries && entries[key] == entry
      ensures forall k :: k in entries && k != key ==> EntryFits(k)
      ensures entry.users == |Users(leases, key)|
      ensures entry.holder.Some? ==> entry.holder.value in Users(leases, key)
    {
      UserRemoved(leases, lease);
      assert EntryFits(key);
      entry.users := entry.users - 1;
      leases := leases - {lease};
      forall k | k in entries && k != key
        ensures EntryFits(k)
      {
        assert old(EntryFits(k));
      }
    }

    lemma NobodyLeft(key: Key)
      requires |Users(leases, key)| == 0
      ensures forall lease :: lease in leases ==> leases[lease].key != key
    {
      forall lease | lease in leases
        ensures leases[lease].key != key
      {
        assert lease !in Users(leases, key);
      }
    }
  }
}
