/** LocUnorderedSetMap of gps/utils/LocUnorderedSetMap.h: keys mapped to sets of values.
    Functions on `map` values say what each operation does; the object's methods do it
    with the loops of the original, visiting elements in no particular order. */
module SetMap {

  function Get<K, V>(m: map<K, set<V>>, key: K): set<V> {
    if key in m then m[key] else {}
  }

  /** Takes `vals` out of the entries of `keys`, dropping entries that become empty. */
  function Trimmed<K, V>(m: map<K, set<V>>, keys: set<K>, vals: set<V>): map<K, set<V>> {
    map k | k in m && !(k in keys && m[k] <= vals) :: if k in keys then m[k] - vals else m[k]
  }

  function GoneKeys<K, V>(m: map<K, set<V>>, keys: set<K>, vals: set<V>): set<K> {
    set k | k in keys && k in m && m[k] <= vals
  }

  function GoneVals<K, V>(m: map<K, set<V>>, keys: set<K>, vals: set<V>): set<V> {
    set v | v in vals && exists k <- keys :: v in Get(m, k)
  }

  function Added<K, V>(m: map<K, set<V>>, keys: set<K>, vals: set<V>): map<K, set<V>> {
    if vals == {} then m
    else map k | k in m.Keys + keys :: if k in keys then Get(m, k) + vals else m[k]
  }

  function NewKeys<K, V>(m: map<K, set<V>>, keys: set<K>, vals: set<V>): set<K> {
    if vals == {} then {} else keys - m.Keys
  }

  /** The new contents of `key`; nothing at all if there are no new values. */
  function Replaced<K, V>(m: map<K, set<V>>, key: K, vals: set<V>): map<K, set<V>> {
    if vals == {} then m - {key} else m[key := vals]
  }

  // ---------- one key more ----------

  lemma TrimmedMore<K, V>(m: map<K, set<V>>, done: set<K>, key: K, vals: set<V>)
    requires key !in done
    ensures var t := Trimmed(m, done, vals);
            && (key in t <==> key in m) && (key in m ==> t[key] == m[key])
            && Trimmed(m, done + {key}, vals)
               == if key !in m then t else if m[key] <= vals then t - {key} else t[key := m[key] - vals]
  {
  }

  lemma GoneMore<K, V>(m: map<K, set<V>>, done: set<K>, key: K, vals: set<V>)
    ensures GoneKeys(m, done + {key}, vals)
         == GoneKeys(m, done, vals) + if key in m && m[key] <= vals then {key} else {}
    ensures GoneVals(m, done + {key}, vals) == GoneVals(m, done, vals) + Get(m, key) * vals
  {
  }

  lemma AddedMore<K, V>(m: map<K, set<V>>, done: set<K>, key: K, vals: set<V>)
    requires key !in done
    ensures var t := Added(m, done, vals);
            && (key in t <==> key in m)
            && Added(m, done + {key}, vals) == Added(t, {key}, vals)
            && NewKeys(m, done + {key}, vals) == NewKeys(m, done, vals) + NewKeys(t, {key}, vals)
  {
  }

  class LocUnorderedSetMap<K(==), V(==)> {
    var mMap: map<K, set<V>>

    constructor ()
      ensures mMap == map[]
    {
      mMap := map[];
    }

    method GetValSet(key: K) returns (vals: set<V>)
      ensures vals == Get(mMap, key)
    {
      vals := if key in mMap then mMap[key] else {};
    }

    method Remove(key: K) returns (removed: bool)
      modifies this
      ensures mMap == old(mMap) - {key} && removed == (key in old(mMap))
    {
      removed := key in mMap;
      mMap := mMap - {key};
    }

    /** Trims one entry; the entry goes if nothing is left in it. */
    method TrimOrRemoveEntry(key: K, rVals: set<V>) returns (removeEntry: bool, goneVals: set<V>)
      requires key in mMap
      modifies this
      ensures removeEntry == (old(mMap)[key] <= rVals)
      ensures goneVals == old(mMap)[key] * rVals
      ensures mMap == if removeEntry then old(mMap) - {key} else old(mMap)[key := old(mMap)[key] - rVals]
    {
      var left := mMap[key];
      goneVals := {};
      var todo := rVals;
      while todo != {}
        invariant todo <= rVals
        invariant left == old(mMap)[key] - (rVals - todo) && goneVals == old(mMap)[key] * (rVals - todo)
        decreases todo
      {
        var val :| val in todo;
        if val in left {
          left, goneVals := left - {val}, goneVals + {val};
        }
        todo := todo - {val};
      }
      assert rVals - todo == rVals;
      assert left == {} <==> old(mMap)[key] <= rVals by {
        assert forall v :: v in left <==> v in old(mMap)[key] && v !in rVals;
      }
      removeEntry := left == {};
      mMap := if removeEntry then mMap - {key} else mMap[key := left];
    }

    method TrimOrRemove(keys: set<K>, rVals: set<V>) returns (goneKeys: set<K>, goneVals: set<V>)
      modifies this
      ensures mMap == Trimmed(old(mMap), keys, rVals)
      ensures goneKeys == GoneKeys(old(mMap), keys, rVals)
      ensures goneVals == GoneVals(old(mMap), keys, rVals)
    {
      goneKeys, goneVals := {}, {};
      var todo := keys;
      while todo != {}
        invariant todo <= keys
        invariant mMap == Trimmed(old(mMap), keys - todo, rVals)
        invariant goneKeys == GoneKeys(old(mMap), keys - todo, rVals)
        invariant goneVals == GoneVals(old(mMap), keys - todo, rVals)
        decreases todo
      {
        var key :| key in todo;
        TrimmedMore(old(mMap), keys - todo, key, rVals);
        GoneMore(old(mMap), keys - todo, key, rVals);
        if key in mMap {
          var removed, gone := TrimOrRemoveEntry(key, rVals);
          goneVals := goneVals + gone;
          if removed {
            goneKeys := goneKeys + {key};
          }
        }
        assert keys - (todo - {key}) == (keys - todo) + {key};
        todo := todo - {key};
      }
      assert keys - todo == keys;
    }

    method AddEntry(key: K, newVals: set<V>) returns (newEntryAdded: bool)
      modifies this
      ensures mMap == Added(old(mMap), {key}, newVals)
      ensures newEntryAdded == (newVals != {} && key !in old(mMap))
    {
      newEntryAdded := false;
      if newVals != {} {
        if key in mMap {
          mMap := mMap[key := mMap[key] + newVals];
        } else {
          mMap := mMap[key := newVals];
          newEntryAdded := true;
        }
        assert mMap.Keys == old(mMap).Keys + {key} && mMap[key] == Get(old(mMap), key) + newVals;
      }
    }

    method Add(keys: set<K>, newVals: set<V>) returns (newKeys: set<K>)
      modifies this
      ensures mMap == Added(old(mMap), keys, newVals)
      ensures newKeys == NewKeys(old(mMap), keys, newVals)
    {
      newKeys := {};
      var todo := keys;
      while todo != {}
        invariant todo <= keys
        invariant mMap == Added(old(mMap), keys - todo, newVals)
        invariant newKeys == NewKeys(old(mMap), keys - todo, newVals)
        decreases todo
      {
        var key :| key in todo;
        AddedMore(old(mMap), keys - todo, key, newVals);
        var added := AddEntry(key, newVals);
        if added {
          newKeys := newKeys + {key};
        }
        assert keys - (todo - {key}) == (keys - todo) + {key};
        todo := todo - {key};
      }
      assert keys - todo == keys;
    }

    /** Puts `newVals` under `key`.  What comes back as `goneVals` is the overlap of the old
        and the new values, and the values passed on are the new ones without it. */
    method Update(key: K, newVals: set<V>) returns (goneVals: set<V>, freshVals: set<V>)
      modifies this
      ensures mMap == Replaced(old(mMap), key, newVals)
      ensures goneVals == Get(old(mMap), key) * newVals
      ensures freshVals == newVals - Get(old(mMap), key)
    {
      goneVals, freshVals := {}, newVals;
      if newVals == {} {
        mMap := mMap - {key};
      } else {
        var curVals := if key in mMap then mMap[key] else {};
        mMap := mMap[key := newVals];
        goneVals, freshVals := RemoveAndReturnInterset(curVals, newVals);
      }
    }

    static method RemoveAndReturnInterset(s1: set<V>, s2: set<V>) returns (common: set<V>, rest: set<V>)
      ensures common == s1 * s2 && rest == s2 - s1
    {
      common, rest := {}, s2;
      var todo := s2;
      while todo != {}
        invariant todo <= s2
        invariant common == s1 * (s2 - todo) && rest == s2 - common
        decreases todo
      {
        var val :| val in todo;
        if val in s1 && val !in common {
          common, rest := common + {val}, rest - {val};
        }
        todo := todo - {val};
      }
    }
  }
}
