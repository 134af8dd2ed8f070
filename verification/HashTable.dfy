/**
 The hash table as the C code keeps it: an array of slots that probing, shifting and rebuilding
 change in place. Each operation is proved equal to its value-level counterpart in `HashMap.Exec`,
 and so to the finite map. Whether an allocation succeeds is a parameter.
 */
module HashTable {
  import opened Cyclic
  import opened HashSpec
  import opened HashSizes
  import opened HashOps
  import opened HashMap
  import opened HashLoops

  class HashTable<K(!new), V(!new)> {
    const keys: Keys<K>
    var table: array?<Slot<Entry<K, V>>>
    var size: nat
    var used: int
    ghost var model: Model<K, V>

    /** The table as a value. */
    ghost function Contents(): Handle<Entry<K, V>>
      reads this, table
    {
      if table == null then Null else Live(State(table[..], used))
    }

    /** The table is well formed and holds exactly the pairs of `model`. */
    ghost predicate Valid()
      reads this, table
    {
      && Lawful(keys)
      && (table != null ==> size == table.Length)
      && Matches(keys, Contents(), model)
    }

    constructor (keys: Keys<K>, alloc: bool)
      requires Lawful(keys)
      ensures Valid() && this.keys == keys && (table == null || fresh(table))
      ensures (Contents(), model) == if alloc then (Live(Empty()), Kept(map[], MIN_SIZE)) else (Null, Lost)
    {
      this.keys := keys;
      table, size, used, model := null, 0, 0, Lost;
      new;
      var r := Reinit(alloc, false);
    }

    method Reinit(alloc: bool, retry: bool) returns (r: Reply<V>)
      requires Valid()
      modifies this
      ensures Valid() && (table == null || fresh(table))
      ensures (Contents(), r) == Exec(keys, old(Contents()), Call(CmdReinit, alloc, retry))
      ensures MapStep(keys, old(model), Call(CmdReinit, alloc, retry), r, model)
    {
      ghost var h := Contents();
      if alloc || (table != null && retry) {
        table := Cleared(MIN_SIZE);
        size, used := MIN_SIZE, 0;
        r := Done(Ok);
      } else {
        table := null;
        r := Done(OutOfMemory);
      }
      model := StepRefines(keys, h, model, Call(CmdReinit, alloc, retry));
    }

    method Find(key: K) returns (r: Reply<V>)
      requires Valid() && table != null
      ensures (Contents(), r) == Exec(keys, Contents(), Call(CmdFind(key), true, true))
      ensures MapStep(keys, model, Call(CmdFind(key), true, true), r, model)
    {
      ghost var a := StepRefines(keys, Contents(), model, Call(CmdFind(key), true, true));
      ghost var q := FreeOne();
      var hit := HasKey<K, V>(keys, key);
      var p := ProbeLoop(table, hit, keys.hash(key) % size, q);
      r := if table[p].Used? then Found(table[p].e.value) else Done(DoesNotExist);
    }

    method Insert(key: K, value: V, alloc: bool) returns (r: Reply<V>)
      requires Valid() && table != null
      modifies this, table
      ensures Valid() && table != null && (table == old(table) || fresh(table))
      ensures (Contents(), r) == Exec(keys, old(Contents()), Call(CmdInsert(Entry(key, value)), alloc, true))
      ensures MapStep(keys, old(model), Call(CmdInsert(Entry(key, value)), alloc, true), r, model)
    {
      ghost var a := StepRefines(keys, Contents(), model, Call(CmdInsert(Entry(key, value)), alloc, true));
      var rc := InsertSlot(key, value, alloc);
      r, model := Done(rc), a;
    }

    method Update(key: K, value: V, alloc: bool) returns (r: Reply<V>)
      requires Valid() && table != null
      modifies this, table
      ensures Valid() && table != null && (table == old(table) || fresh(table))
      ensures (Contents(), r) == Exec(keys, old(Contents()), Call(CmdUpdate(Entry(key, value)), alloc, true))
      ensures MapStep(keys, old(model), Call(CmdUpdate(Entry(key, value)), alloc, true), r, model)
    {
      ghost var a := StepRefines(keys, Contents(), model, Call(CmdUpdate(Entry(key, value)), alloc, true));
      var rc := UpdateSlot(key, value, alloc);
      r, model := Done(rc), a;
    }

    method Erase(key: K, alloc: bool) returns (r: Reply<V>)
      requires Valid() && table != null
      modifies this, table
      ensures Valid() && table != null && (table == old(table) || fresh(table))
      ensures (Contents(), r) == Exec(keys, old(Contents()), Call(CmdErase(key), alloc, true))
      ensures MapStep(keys, old(model), Call(CmdErase(key), alloc, true), r, model)
    {
      ghost var a := StepRefines(keys, Contents(), model, Call(CmdErase(key), alloc, true));
      var rc := EraseSlot(key, alloc);
      r, model := Done(rc), a;
    }

    /** The slots and their count are those of a valid table value. */
    ghost predicate Sound()
      reads this, table
    {
      table != null && size == table.Length && HashOps.Valid(State(table[..], used), HashOf<K, V>(keys))
    }

    lemma FreeOne() returns (q: nat)
      requires Sound()
      ensures q < table.Length && table[q].Free?
    {
      UpperIsFloor(size);
      q := FreeSlot(table[..]);
    }

    method InsertSlot(key: K, value: V, alloc: bool) returns (rc: Outcome)
      requires Sound()
      modifies this`table, this`size, this`used, table
      ensures table != null && size == table.Length && (table == old(table) || fresh(table))
      ensures (State(table[..], used), rc)
           == HashOps.Insert(old(State(table[..], used)), HashOf(keys), HasKey(keys, key), Entry(key, value), alloc)
    {
      hide Probe, Refill, Reachable, Bag, SizeOk, Upper, Target, Shift, HashOps.Rehash;
      RehashKeeps(State(table[..], used), HashOf(keys), alloc);
      var failed := Rehash(alloc);
      if failed {
        return OutOfMemory;
      }
      ghost var q := FreeOne();
      var hit := HasKey<K, V>(keys, key);
      var p := ProbeLoop(table, hit, keys.hash(key) % size, q);
      if table[p].Used? {
        return AlreadyExists;
      }
      table[p] := Used(Entry(key, value));
      used := used + 1;
      rc := Ok;
    }

    method UpdateSlot(key: K, value: V, alloc: bool) returns (rc: Outcome)
      requires Sound()
      modifies this`table, this`size, this`used, table
      ensures table != null && size == table.Length && (table == old(table) || fresh(table))
      ensures (State(table[..], used), rc)
           == HashOps.Update(old(State(table[..], used)), HashOf(keys), HasKey(keys, key), Entry(key, value), alloc)
    {
      hide Probe, Refill, Reachable, Bag, SizeOk, Upper, Target, Shift, HashOps.Rehash;
      RehashKeeps(State(table[..], used), HashOf(keys), alloc);
      var failed := Rehash(alloc);
      if failed {
        return OutOfMemory;
      }
      ghost var q := FreeOne();
      var hit := HasKey<K, V>(keys, key);
      var p := ProbeLoop(table, hit, keys.hash(key) % size, q);
      if table[p].Free? {
        used := used + 1;
      }
      table[p] := Used(Entry(key, value));
      rc := Ok;
    }

    method EraseSlot(key: K, alloc: bool) returns (rc: Outcome)
      requires Sound() && Lawful(keys)
      modifies this`table, this`size, this`used, table
      ensures table != null && size == table.Length && (table == old(table) || fresh(table))
      ensures (State(table[..], used), rc)
           == HashOps.Erase(old(State(table[..], used)), HashOf(keys), HasKey(keys, key), keys.hash(key), alloc)
    {
      hide Probe, Refill, Reachable, Bag, SizeOk, Upper, Target, Shift, HashOps.Rehash;
      ghost var s := State(table[..], used);
      ghost var q := FreeOne();
      var hit := HasKey<K, V>(keys, key);
      var p := ProbeLoop(table, hit, keys.hash(key) % size, q);
      if table[p].Free? {
        return DoesNotExist;
      }
      ErasedValid(s, HashOf(keys), p);
      ShiftLoop(table, Home(HashOf(keys), size), p, q);
      used := used - 1;
      var _ := Rehash(alloc);
      rc := Ok;
    }

    method Rehash(alloc: bool) returns (failed: bool)
      requires Sound()
      modifies this`table, this`size
      ensures table != null && size == table.Length && (table == old(table) || fresh(table))
      ensures (State(table[..], used), !failed) == HashOps.Rehash(old(State(table[..], used)), HashOf(keys), alloc)
    {
      var rebuild, newsize := NewSize(size, used);
      if !rebuild {
        return false;
      }
      if !alloc {
        return true;
      }
      TargetHasRoom(size, used);
      table := RefillLoop(table, HashOf(keys), newsize);
      size := newsize;
      failed := false;
    }
  }
}
