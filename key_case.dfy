/** The key rewriting between the database's snake_case columns and the
    application's camelCase fields (`toCamelCase` / `toSnakeCase`). */
module KeyCase {

  import opened Collections
  import opened Text

  /** No `_` is directly followed by an ASCII lower-case letter: nothing is left for
      the pattern `/_([a-z])/g` to match. */
  predicate NoCamelMatch(k: string)
  {
    forall i :: 0 <= i < |k| - 1 ==> !(k[i] == '_' && IsAsciiLower(k[i + 1]))
  }

  predicate NoUpper(k: string)
  {
    forall i :: 0 <= i < |k| ==> !IsAsciiUpper(k[i])
  }

  predicate NoUnderscore(k: string)
  {
    forall i :: 0 <= i < |k| ==> k[i] != '_'
  }

  /** `key.replace(/_([a-z])/g, g => g[1].toUpperCase())`: the matches are found left
      to right without overlapping, each `_x` becoming `X`. */
  function CamelKey(k: string): (r: string)
    ensures |r| <= |k|
    ensures NoCamelMatch(r)
    ensures r != [] ==> k != [] && (r[0] == k[0] || (k[0] == '_' && IsAsciiUpper(r[0])))
    ensures NoUnderscore(k) ==> r == k
  {
    if |k| >= 2 && k[0] == '_' && IsAsciiLower(k[1]) then
      [ToUpperChar(k[1])] + CamelKey(k[2..])
    else if k == [] then []
    else
      var rest := CamelKey(k[1..]);
      assert NoCamelMatch([k[0]] + rest) by {
        if k[0] == '_' && rest != [] {
          assert rest[0] == k[1] || (k[1] == '_' && IsAsciiUpper(rest[0]));
        }
      }
      [k[0]] + rest
  }

  /** `key.replace(/[A-Z]/g, letter => '_' + letter.toLowerCase())`. */
  function SnakeKey(k: string): (r: string)
    ensures |r| >= |k|
    ensures NoUpper(r)
    ensures NoUpper(k) ==> r == k
  {
    if k == [] then []
    else (if IsAsciiUpper(k[0]) then ['_', ToLowerChar(k[0])] else [k[0]]) + SnakeKey(k[1..])
  }

  /** Rewriting to camelCase a second time changes nothing. */
  lemma {:induction false} CamelKeyIdempotent(k: string)
    ensures CamelKey(CamelKey(k)) == CamelKey(k)
  {
    CamelKeyOfNoMatch(CamelKey(k));
  }

  lemma {:induction false} CamelKeyOfNoMatch(k: string)
    requires NoCamelMatch(k)
    ensures CamelKey(k) == k
  {
    if k != [] {
      assert NoCamelMatch(k[1..]);
      CamelKeyOfNoMatch(k[1..]);
    }
  }

  /** Rewriting to snake_case a second time changes nothing. */
  lemma SnakeKeyIdempotent(k: string)
    ensures SnakeKey(SnakeKey(k)) == SnakeKey(k)
  {
  }

  /** A database column name (no upper-case letters) survives the trip to a field
      name and back. */
  lemma {:induction false} SnakeOfCamelKey(k: string)
    requires NoUpper(k)
    ensures SnakeKey(CamelKey(k)) == k
  {
    if |k| >= 2 && k[0] == '_' && IsAsciiLower(k[1]) {
      assert NoUpper(k[2..]);
      SnakeOfCamelKey(k[2..]);
      assert k == ['_', k[1]] + k[2..];
    } else if k != [] {
      assert NoUpper(k[1..]);
      SnakeOfCamelKey(k[1..]);
      assert CamelKey(k) == [k[0]] + CamelKey(k[1..]);
    }
  }

  /** A field name without underscores survives the trip to a column name and
      back. */
  lemma {:induction false} CamelOfSnakeKey(k: string)
    requires NoUnderscore(k)
    ensures CamelKey(SnakeKey(k)) == k
  {
    if k != [] {
      assert NoUnderscore(k[1..]);
      CamelOfSnakeKey(k[1..]);
      CamelOfSnakeCons(k[0], k[1..]);
      assert k == [k[0]] + k[1..];
    }
  }

  /** One more character in front of a name that already survives the trip. */
  lemma CamelOfSnakeCons(c: char, rest: string)
    requires c != '_' && CamelKey(SnakeKey(rest)) == rest
    ensures CamelKey(SnakeKey([c] + rest)) == [c] + rest
  {
    if IsAsciiUpper(c) {
      SnakeOfUpperCons(c, rest);
      CamelOfLowered(ToLowerChar(c), SnakeKey(rest));
    } else {
      SnakeOfPlainCons(c, rest);
      CamelOfPlain(c, SnakeKey(rest));
    }
  }

  lemma SnakeOfUpperCons(c: char, rest: string)
    requires IsAsciiUpper(c)
    ensures SnakeKey([c] + rest) == ['_', ToLowerChar(c)] + SnakeKey(rest)
  {
    assert ([c] + rest)[1..] == rest;
  }

  lemma SnakeOfPlainCons(c: char, rest: string)
    requires !IsAsciiUpper(c)
    ensures SnakeKey([c] + rest) == [c] + SnakeKey(rest)
  {
    assert ([c] + rest)[1..] == rest;
  }

  /** `_x` with a lower-case `x` becomes `X`. */
  lemma CamelOfLowered(c: char, t: string)
    requires IsAsciiLower(c)
    ensures CamelKey(['_', c] + t) == [ToUpperChar(c)] + CamelKey(t)
  {
    assert (['_', c] + t)[2..] == t;
  }

  /** A character other than `_` is kept as it is. */
  lemma CamelOfPlain(c: char, t: string)
    requires c != '_'
    ensures CamelKey([c] + t) == [c] + CamelKey(t)
  {
    assert ([c] + t)[1..] == t;
  }

  /** A record as `Object.keys` lists it: its entries in key order. */
  type Entries<V> = seq<(string, V)>

  /** Some entry is stored under `k`. */
  predicate HasKey<V>(e: Entries<V>, k: string)
  {
    exists i :: 0 <= i < |e| && e[i].0 == k
  }

  /** No key is listed twice, as in any object. */
  predicate DistinctKeys<V>(e: Entries<V>)
  {
    forall i, j :: 0 <= i < j < |e| ==> e[i].0 != e[j].0
  }

  /** `newObj[k] = v`: an existing key keeps its place and takes the new value, a new
      key is added at the end. */
  function Assign<V>(e: Entries<V>, k: string, v: V): (r: Entries<V>)
    ensures !HasKey(e, k) ==> r == e + [(k, v)]
    ensures HasKey(e, k) ==> |r| == |e| && forall i :: 0 <= i < |e| ==> r[i].0 == e[i].0
    ensures DistinctKeys(e) ==> DistinctKeys(r)
    ensures (k, v) in r
  {
    if e == [] then [(k, v)]
    else if e[0].0 == k then [(k, v)] + e[1..]
    else
      var rest := Assign(e[1..], k, v);
      AssignBehind(e, k, v, rest);
      [e[0]] + rest
  }

  /** The step of `Assign` past a first entry with another key. */
  lemma AssignBehind<V>(e: Entries<V>, k: string, v: V, rest: Entries<V>)
    requires e != [] && e[0].0 != k
    requires !HasKey(e[1..], k) ==> rest == e[1..] + [(k, v)]
    requires HasKey(e[1..], k) ==> |rest| == |e[1..]| && forall i :: 0 <= i < |e[1..]| ==> rest[i].0 == e[1..][i].0
    requires DistinctKeys(e[1..]) ==> DistinctKeys(rest)
    requires (k, v) in rest
    ensures !HasKey(e, k) ==> [e[0]] + rest == e + [(k, v)]
    ensures HasKey(e, k) ==> |[e[0]] + rest| == |e| && forall i :: 0 <= i < |e| ==> ([e[0]] + rest)[i].0 == e[i].0
    ensures DistinctKeys(e) ==> DistinctKeys([e[0]] + rest)
    ensures (k, v) in [e[0]] + rest
  {
    assert e == [e[0]] + e[1..];
    if HasKey(e, k) {
      AssignBehindKeys(e, k, rest);
    }
    if DistinctKeys(e) {
      AssignBehindDistinct(e, k, v, rest);
    }
  }

  /** Past the first entry, a key already present keeps every key in its place. */
  lemma AssignBehindKeys<V>(e: Entries<V>, k: string, rest: Entries<V>)
    requires e != [] && e[0].0 != k && HasKey(e, k)
    requires HasKey(e[1..], k) ==> |rest| == |e[1..]| && forall i :: 0 <= i < |e[1..]| ==> rest[i].0 == e[1..][i].0
    ensures |[e[0]] + rest| == |e| && forall i :: 0 <= i < |e| ==> ([e[0]] + rest)[i].0 == e[i].0
  {
    var t := e[1..];
    var r := [e[0]] + rest;
    var i :| 0 <= i < |e| && e[i].0 == k;
    assert t[i - 1].0 == k;
    assert HasKey(t, k);
    forall j | 0 <= j < |e| ensures r[j].0 == e[j].0 {
      if j > 0 {
        assert r[j] == rest[j - 1] && e[j] == t[j - 1];
      }
    }
  }

  /** Past the first entry, distinct keys stay distinct. */
  lemma AssignBehindDistinct<V>(e: Entries<V>, k: string, v: V, rest: Entries<V>)
    requires e != [] && e[0].0 != k && DistinctKeys(e)
    requires !HasKey(e[1..], k) ==> rest == e[1..] + [(k, v)]
    requires HasKey(e[1..], k) ==> |rest| == |e[1..]| && forall i :: 0 <= i < |e[1..]| ==> rest[i].0 == e[1..][i].0
    requires DistinctKeys(e[1..]) ==> DistinctKeys(rest)
    ensures DistinctKeys([e[0]] + rest)
  {
    var t := e[1..];
    var r := [e[0]] + rest;
    assert DistinctKeys(t) by {
      forall i, j | 0 <= i < j < |t| ensures t[i].0 != t[j].0 {
        assert t[i] == e[i + 1] && t[j] == e[j + 1];
      }
    }
    forall j | 0 <= j < |rest| ensures rest[j].0 != e[0].0 {
      if HasKey(t, k) {
        assert rest[j].0 == t[j].0 == e[j + 1].0;
      } else if j < |t| {
        assert rest[j] == t[j] == e[j + 1];
      } else {
        assert rest[j] == (k, v);
      }
    }
    forall i, j | 0 <= i < j < |r| ensures r[i].0 != r[j].0 {
      if i > 0 {
        assert r[i] == rest[i - 1] && r[j] == rest[j - 1];
      } else {
        assert r[j] == rest[j - 1];
      }
    }
  }

  /** The object the `forEach` loop of `toCamelCase` / `toSnakeCase` fills in: every
      entry is assigned under its renamed key, in order. */
  function Rekey<V>(e: Entries<V>, rename: string -> string): Entries<V>
  {
    if e == [] then []
    else Assign(Rekey(e[..|e| - 1], rename), rename(e[|e| - 1].0), e[|e| - 1].1)
  }

  /** Each entry under its renamed key, nothing merged. */
  function Renamed<V>(e: Entries<V>, rename: string -> string): (r: Entries<V>)
    ensures |r| == |e|
    ensures forall i :: 0 <= i < |e| ==> r[i] == (rename(e[i].0), e[i].1)
  {
    if e == [] then [] else Renamed(e[..|e| - 1], rename) + [(rename(e[|e| - 1].0), e[|e| - 1].1)]
  }

  /** The rewritten object never holds one key twice, even when two keys of the
      input rename to the same key. */
  lemma {:induction false} RekeyDistinct<V>(e: Entries<V>, rename: string -> string)
    ensures DistinctKeys(Rekey(e, rename))
  {
    if e != [] {
      RekeyDistinct(e[..|e| - 1], rename);
    }
  }

  /** When the renaming is one-to-one on the keys, every entry keeps its value and
      its place. */
  lemma {:induction false} RekeyInjective<V>(e: Entries<V>, rename: string -> string)
    requires forall i, j :: 0 <= i < j < |e| ==> rename(e[i].0) != rename(e[j].0)
    ensures Rekey(e, rename) == Renamed(e, rename)
  {
    if e != [] {
      var init := e[..|e| - 1];
      RekeyInjective(init, rename);
      var last := e[|e| - 1];
      var prev := Renamed(init, rename);
      assert !HasKey(prev, rename(last.0)) by {
        forall i | 0 <= i < |prev| ensures prev[i].0 != rename(last.0) {
          assert init[i] == e[i];
        }
      }
    }
  }

  lemma CamelKeyInjective(a: string, b: string)
    requires NoUpper(a) && NoUpper(b) && a != b
    ensures CamelKey(a) != CamelKey(b)
  {
    SnakeOfCamelKey(a);
    SnakeOfCamelKey(b);
  }

  /** Column names without upper-case letters rename to pairwise different field
      names. */
  lemma CamelKeysDistinct<V>(e: Entries<V>)
    requires DistinctKeys(e)
    requires forall i :: 0 <= i < |e| ==> NoUpper(e[i].0)
    ensures forall i, j :: 0 <= i < j < |e| ==> CamelKey(e[i].0) != CamelKey(e[j].0)
  {
    forall i, j | 0 <= i < j < |e| ensures CamelKey(e[i].0) != CamelKey(e[j].0) {
      CamelKeyInjective(e[i].0, e[j].0);
    }
  }

  lemma RenamedRoundTrip<V>(e: Entries<V>)
    requires forall i :: 0 <= i < |e| ==> NoUpper(e[i].0)
    ensures Renamed(Renamed(e, CamelKey), SnakeKey) == e
  {
    var s := Renamed(Renamed(e, CamelKey), SnakeKey);
    forall i | 0 <= i < |e| ensures s[i] == e[i] {
      SnakeOfCamelKey(e[i].0);
    }
  }

  /** `toSnakeCase(toCamelCase(row))` gives back the row whenever its column names hold
      no upper-case letter. */
  lemma SnakeOfCamelEntries<V>(e: Entries<V>)
    requires DistinctKeys(e)
    requires forall i :: 0 <= i < |e| ==> NoUpper(e[i].0)
    ensures Rekey(Rekey(e, CamelKey), SnakeKey) == e
  {
    CamelKeysDistinct(e);
    RekeyInjective(e, CamelKey);
    var c := Renamed(e, CamelKey);
    RenamedRoundTrip(e);
    forall i, j | 0 <= i < j < |c| ensures SnakeKey(c[i].0) != SnakeKey(c[j].0) {
      SnakeOfCamelKey(e[i].0);
      SnakeOfCamelKey(e[j].0);
    }
    RekeyInjective(c, SnakeKey);
  }

  /** The shared body of `toCamelCase` and `toSnakeCase`: a missing record is returned
      as it is, otherwise a fresh object is filled key by key. */
  method RewriteKeys<V>(obj: Option<Entries<V>>, rename: string -> string)
    returns (r: Option<Entries<V>>)
    ensures obj.None? ==> r.None?
    ensures obj.Some? ==> r == Some(Rekey(obj.value, rename))
  {
    if obj.None? {
      return None;
    }
    var e := obj.value;
    var built: Entries<V> := [];
    var i := 0;
    while i < |e|
      invariant 0 <= i <= |e|
      invariant built == Rekey(e[..i], rename)
    {
      ghost var next := e[..i + 1];
      assert next[..|next| - 1] == e[..i];
      assert next[|next| - 1] == e[i];
      built := Assign(built, rename(e[i].0), e[i].1);
      assert built == Rekey(next, rename);
      i := i + 1;
    }
    assert e[..|e|] == e;
    return Some(built);
  }

  /** `toCamelCase`: a database row to an application record. */
  method ToCamelCase<V>(obj: Option<Entries<V>>) returns (r: Option<Entries<V>>)
    ensures obj.None? ==> r.None?
    ensures obj.Some? ==> r == Some(Rekey(obj.value, CamelKey))
  {
    r := RewriteKeys(obj, CamelKey);
  }

  /** `toSnakeCase`: an application record to a database row. */
  method ToSnakeCase<V>(obj: Option<Entries<V>>) returns (r: Option<Entries<V>>)
    ensures obj.None? ==> r.None?
    ensures obj.Some? ==> r == Some(Rekey(obj.value, SnakeKey))
  {
    r := RewriteKeys(obj, SnakeKey);
  }
}
