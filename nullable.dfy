/**
 * The tri-state optional container of the jsonapi package (nullable.go).
 *
 * A Go `Nullable[T]` is a `map[bool]T` whose keys encode three states:
 * no key (a nil or empty map) means the field was not provided, the key
 * `false` means an explicit `null` was provided, and the key `true` means a
 * value was provided. Setters replace the whole map through a pointer
 * receiver; getters only look at key presence and at the map's length.
 */
module Nullable {
  import opened Wrappers

  /** The two failures of `Get`: "value is null" and "value is not specified". */
  datatype GetError = NullErr | UnspecifiedErr

  /**
   * What `Get` returns: Go's `(T, error)` pair. On an error `value` is the
   * zero value of `T`.
   */
  datatype GetResult<T> = GetResult(value: T, err: Option<GetError>)

  /**
   * A map keyed by `bool` holds one entry per key present, so its length is
   * the number of keys among `false` and `true` that it has.
   */
  lemma KeyCount<T>(m: map<bool, T>)
    ensures |m| == (if false in m then 1 else 0) + (if true in m then 1 else 0)
  {
    var present := (if false in m then {false} else {}) + (if true in m then {true} else {});
    forall k | k in m.Keys
      ensures k in present
    {
      if k {
        assert true in m;
      } else {
        assert false in m;
      }
    }
    assert m.Keys == present;
  }

  class Nullable<T> {
    /**
     * The zero value of `T`, which Go produces with `var empty T`. Dafny has
     * no such value for an arbitrary type, so each container carries it.
     */
    const zero: T
    /** The Go map itself; a nil map and an empty map are both `map[]`. */
    var entries: map<bool, T>

    /**
     * The settings the setters can produce: empty, `{false: zero}` or a single
     * `{true: v}`. A Go caller can still build any other map by hand, so the
     * getters below do not assume it.
     */
    ghost predicate WellFormed()
      reads this
    {
      |entries| <= 1 && (false in entries ==> entries[false] == zero)
    }

    /** `var n Nullable[T]`: the nil map, i.e. not provided. */
    constructor (zero: T)
      ensures this.zero == zero && entries == map[]
      ensures WellFormed()
      ensures !IsNull() && !IsSpecified()
      ensures Get() == GetResult(zero, Some(UnspecifiedErr))
    {
      this.zero := zero;
      entries := map[];
    }

    /**
     * An explicit `null` is present. Such a container also counts as
     * specified, since its map is not empty.
     */
    predicate IsNull()
      reads this
      ensures IsNull() ==> IsSpecified()
    {
      false in entries
    }

    /**
     * The field was sent, either as a value or as an explicit `null`: the map
     * has an entry under one of its two keys.
     */
    predicate IsSpecified()
      reads this
      ensures IsSpecified() <==> (false in entries || true in entries)
    {
      KeyCount(entries); |entries| != 0
    }

    /**
     * The held value, or why there is none. The null check comes first, so a
     * map holding both keys reports the null error; every error comes with
     * the zero value.
     */
    function Get(): (r: GetResult<T>)
      reads this
      ensures r.err == Some(NullErr) <==> false in entries
      ensures r.err == Some(UnspecifiedErr) <==> entries == map[]
      ensures r.err.None? <==> true in entries && false !in entries
      ensures r.err.None? ==> true in entries && r.value == entries[true]
      ensures r.err.Some? ==> r.value == zero
    {
      if IsNull() then
        GetResult(zero, Some(NullErr))
      else if !IsSpecified() then
        GetResult(zero, Some(UnspecifiedErr))
      else
        GetResult(entries[true], None)
    }

    /** Replaces the map by `{true: value}`, whatever it held before. */
    method Set(value: T)
      modifies this
      ensures entries == map[true := value]
      ensures WellFormed()
      ensures !IsNull() && IsSpecified()
      ensures Get() == GetResult(value, None)
    {
      entries := map[true := value];
    }

    /** Replaces the map by `{false: zero}`, whatever it held before. */
    method SetNull()
      modifies this
      ensures entries == map[false := zero]
      ensures WellFormed()
      ensures IsNull() && IsSpecified()
      ensures Get() == GetResult(zero, Some(NullErr))
    {
      entries := map[false := zero];
    }

    /** Replaces the map by an empty one, whatever it held before. */
    method SetUnspecified()
      modifies this
      ensures entries == map[]
      ensures WellFormed()
      ensures !IsNull() && !IsSpecified()
      ensures Get() == GetResult(zero, Some(UnspecifiedErr))
    {
      entries := map[];
    }
  }

  /**
   * On the maps the setters produce, the outcome of `Get` determines the map:
   * no two different settings are observed alike.
   */
  lemma GetDeterminesSetting<T>(a: Nullable<T>, b: Nullable<T>)
    requires a.WellFormed() && b.WellFormed() && a.zero == b.zero
    requires a.Get() == b.Get()
    ensures a.entries == b.entries
  {
    var r := a.Get();
    if r.err == Some(NullErr) {
      assert a.entries == map[false := a.zero] by {
        OnlyKey(a.entries, false);
      }
      assert b.entries == map[false := b.zero] by {
        OnlyKey(b.entries, false);
      }
    } else if r.err.None? {
      OnlyKey(a.entries, true);
      OnlyKey(b.entries, true);
    }
  }

  /** A map with at most one entry that has key `k` is exactly `{k: m[k]}`. */
  lemma OnlyKey<T>(m: map<bool, T>, k: bool)
    requires |m| <= 1 && k in m
    ensures m == map[k := m[k]]
  {
    KeyCount(m);
    forall j | j in m.Keys
      ensures j == k
    {
      if j != k {
        assert j == !k;
      }
    }
    assert m.Keys == {k};
  }

  /** `NewNullableWithValue(t)`: a fresh container holding `t`. */
  method NewNullableWithValue<T>(zero: T, t: T) returns (n: Nullable<T>)
    ensures fresh(n) && n.zero == zero
    ensures n.entries == map[true := t]
    ensures n.Get() == GetResult(t, None) && !n.IsNull()
  {
    n := new Nullable(zero);
    n.Set(t);
  }

  /** `NewNullNullable()`: a fresh container holding an explicit `null`. */
  method NewNullNullable<T>(zero: T) returns (n: Nullable<T>)
    ensures fresh(n) && n.zero == zero
    ensures n.entries == map[false := zero]
    ensures n.IsNull() && n.Get() == GetResult(zero, Some(NullErr))
  {
    n := new Nullable(zero);
    n.SetNull();
  }

  /**
   * An opaque stand-in for Go's `time.Time`; only its zero value matters
   * here, as the value `Get` reports on an error.
   */
  datatype Time = Time(instant: int)

  const ZeroTime: Time := Time(0)

  /** `NullableBool(v)`: a `Nullable[bool]` holding `v`. */
  method NullableBool(v: bool) returns (n: Nullable<bool>)
    ensures fresh(n) && n.zero == false
    ensures n.entries == map[true := v]
    ensures n.Get() == GetResult(v, None)
  {
    n := NewNullableWithValue(false, v);
  }

  /** `NullBool()`: a `Nullable[bool]` holding an explicit `null`. */
  method NullBool() returns (n: Nullable<bool>)
    ensures fresh(n) && n.zero == false
    ensures n.entries == map[false := false]
    ensures n.IsNull() && n.Get() == GetResult(false, Some(NullErr))
  {
    n := NewNullNullable(false);
  }

  /** `NullableTime(v)`: a `Nullable[time.Time]` holding `v`. */
  method NullableTime(v: Time) returns (n: Nullable<Time>)
    ensures fresh(n) && n.zero == ZeroTime
    ensures n.entries == map[true := v]
    ensures n.Get() == GetResult(v, None)
  {
    n := NewNullableWithValue(ZeroTime, v);
  }

  /** `NullTime()`: a `Nullable[time.Time]` holding an explicit `null`. */
  method NullTime() returns (n: Nullable<Time>)
    ensures fresh(n) && n.zero == ZeroTime
    ensures n.entries == map[false := ZeroTime]
    ensures n.IsNull() && n.Get() == GetResult(ZeroTime, Some(NullErr))
  {
    n := NewNullNullable(ZeroTime);
  }
}
