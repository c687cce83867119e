/** Maps built from a set of fields: one entry per field that has a value,
    under that field's key. Stated for any field type, key function and
    value function, so that facts about them do not depend on what the keys
    or values are. */
module FieldMaps {
  import opened Wrappers

  ghost predicate Injective<F(!new), K>(key: F -> K) {
    forall f, g :: key(f) == key(g) ==> f == g
  }

  function FieldMap<F(!new), K, V>(fs: set<F>, key: F -> K, val: F -> Option<V>): map<K, V>
    requires Injective(key)
  {
    map f | f in fs && val(f).Some? :: key(f) := val(f).value
  }

  /** Every key belongs to a field of `fs`. */
  lemma KeysOwned<F(!new), K, V>(fs: set<F>, key: F -> K, val: F -> Option<V>, k: K)
    requires Injective(key)
    requires k in FieldMap(fs, key, val)
    ensures exists f :: f in fs && val(f).Some? && key(f) == k
  {
  }

  /** A field's key is present exactly when the field is among `fs` and has
      a value, and then it maps to that value. */
  lemma Lookup<F(!new), K, V>(fs: set<F>, key: F -> K, val: F -> Option<V>, f: F)
    requires Injective(key)
    ensures key(f) in FieldMap(fs, key, val) <==> f in fs && val(f).Some?
    ensures key(f) in FieldMap(fs, key, val) ==> FieldMap(fs, key, val)[key(f)] == val(f).value
  {
    var m := FieldMap(fs, key, val);
    if key(f) in m {
      var g :| g in fs && val(g).Some? && key(g) == key(f) && m[key(f)] == val(g).value;
    }
  }

  /** Taking one more field in adds its entry, if it has a value. */
  lemma AddField<F(!new), K, V>(fs: set<F>, key: F -> K, val: F -> Option<V>, f: F)
    requires Injective(key)
    requires f !in fs
    ensures FieldMap(fs + {f}, key, val) ==
              if val(f).Some? then FieldMap(fs, key, val)[key(f) := val(f).value] else FieldMap(fs, key, val)
  {
    var before, after := FieldMap(fs, key, val), FieldMap(fs + {f}, key, val);
    var expected := if val(f).Some? then before[key(f) := val(f).value] else before;
    forall k | k in after ensures k in expected && after[k] == expected[k] {
      KeysOwned(fs + {f}, key, val, k);
      var g :| g in fs + {f} && val(g).Some? && key(g) == k;
      Lookup(fs, key, val, g);
      Lookup(fs + {f}, key, val, g);
    }
    forall k | k in expected ensures k in after {
      if k != key(f) || val(f).None? {
        KeysOwned(fs, key, val, k);
        var g :| g in fs && val(g).Some? && key(g) == k;
        Lookup(fs + {f}, key, val, g);
      }
    }
  }

  /** Changing the value of one field of `fs` changes its entry and no other. */
  lemma ChangeField<F(!new), K, V>(fs: set<F>, key: F -> K, val: F -> Option<V>, val': F -> Option<V>, f: F, v: V)
    requires Injective(key)
    requires f in fs && val'(f) == Some(v)
    requires forall g :: g != f ==> val'(g) == val(g)
    ensures FieldMap(fs, key, val') == FieldMap(fs, key, val)[key(f) := v]
  {
    var before, after := FieldMap(fs, key, val), FieldMap(fs, key, val');
    var expected := before[key(f) := v];
    forall k | k in after ensures k in expected && after[k] == expected[k] {
      KeysOwned(fs, key, val', k);
      var g :| g in fs && val'(g).Some? && key(g) == k;
      Lookup(fs, key, val, g);
      Lookup(fs, key, val', g);
    }
    forall k | k in expected ensures k in after {
      if k != key(f) {
        KeysOwned(fs, key, val, k);
        var g :| g in fs && val(g).Some? && key(g) == k;
        Lookup(fs, key, val', g);
      }
    }
  }

  /** With no field that has a value, the map is empty. */
  lemma NoValues<F(!new), K, V>(fs: set<F>, key: F -> K, val: F -> Option<V>)
    requires Injective(key)
    requires forall f :: f in fs ==> val(f).None?
    ensures FieldMap(fs, key, val) == map[]
  {
  }
}
