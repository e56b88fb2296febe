/**
 * Ordered lists of (name, value) pairs. They stand for three things of the source:
 * the own entries of a plain JavaScript object (in `Object.entries` order, names distinct),
 * the header list of a `Headers` object and the list of a `URLSearchParams` object
 * (both may hold a name several times).
 */
module Pairs {
  import opened JsValues

  type Entries<V> = seq<(string, V)>

  /** All values stored under `name`, in list order (`getAll`). */
  function ValuesOf<V>(es: Entries<V>, name: string): seq<V> {
    if es == [] then []
    else (if es[0].0 == name then [es[0].1] else []) + ValuesOf(es[1..], name)
  }

  /** The first value under `name` (`get`, or a property read on a plain object). */
  function Get<V>(es: Entries<V>, name: string): Option<V> {
    var vs := ValuesOf(es, name);
    if vs == [] then None else Some(vs[0])
  }

  predicate Has<V>(es: Entries<V>, name: string) {
    ValuesOf(es, name) != []
  }

  /** The list without any pair named `name`. */
  function RemoveAll<V>(es: Entries<V>, name: string): Entries<V> {
    if es == [] then []
    else (if es[0].0 == name then [] else [es[0]]) + RemoveAll(es[1..], name)
  }

  /**
   * `set(name, value)` of section 5.1 of the WHATWG Fetch Standard and section 6.2 of the
   * WHATWG URL Standard: the first pair named `name` takes the value and the others are
   * removed; without such a pair, the pair is appended. On a plain object (names distinct)
   * this is property assignment.
   */
  function Set<V>(es: Entries<V>, name: string, value: V): Entries<V> {
    if es == [] then [(name, value)]
    else if es[0].0 == name then [(name, value)] + RemoveAll(es[1..], name)
    else [es[0]] + Set(es[1..], name, value)
  }

  /**
   * `Set` of every pair of `src`, in order: the object spread `{...es, ...src}` and
   * `Object.assign`, and a `forEach` over `src` that calls `set`.
   */
  function SetAll<V>(es: Entries<V>, src: Entries<V>): Entries<V>
    decreases |src|
  {
    if src == [] then es
    else
      var last := src[|src| - 1];
      Set(SetAll(es, src[..|src| - 1]), last.0, last.1)
  }

  /** The value of the last pair of `src` named `name`. */
  function LastValue<V>(src: Entries<V>, name: string): Option<V>
    decreases |src|
  {
    if src == [] then None
    else if src[|src| - 1].0 == name then Some(src[|src| - 1].1)
    else LastValue(src[..|src| - 1], name)
  }

  lemma {:induction false} ValuesOfAppend<V>(a: Entries<V>, b: Entries<V>, name: string)
    ensures ValuesOf(a + b, name) == ValuesOf(a, name) + ValuesOf(b, name)
  {
    if a == [] {
      assert a + b == b;
    } else {
      ConsAppend(a, b);
      ValuesOfAppend(a[1..], b, name);
      ValuesOfCons(a + b, name);
      ValuesOfCons(a, name);
      var h := if a[0].0 == name then [a[0].1] else [];
      Regroup(ValuesOf(a + b, name), ValuesOf(a[1..] + b, name), ValuesOf(a, name), h, ValuesOf(a[1..], name), ValuesOf(b, name));
    }
  }

  lemma ValuesOfCons<V>(es: Entries<V>, name: string)
    requires es != []
    ensures ValuesOf(es, name) == (if es[0].0 == name then [es[0].1] else []) + ValuesOf(es[1..], name)
  {
  }

  lemma {:induction false} RemoveAllValues<V>(es: Entries<V>, name: string, other: string)
    ensures ValuesOf(RemoveAll(es, name), other) == if other == name then [] else ValuesOf(es, other)
  {
    if es != [] {
      var head: Entries<V> := if es[0].0 == name then [] else [es[0]];
      ValuesOfAppend(head, RemoveAll(es[1..], name), other);
      RemoveAllValues(es[1..], name, other);
    }
  }

  /** After `set`, the name holds exactly the new value and every other name is untouched. */
  lemma {:induction false} SetValues<V>(es: Entries<V>, name: string, value: V, other: string)
    ensures ValuesOf(Set(es, name, value), other) == if other == name then [value] else ValuesOf(es, other)
  {
    if es == [] {
    } else if es[0].0 == name {
      ValuesOfAppend([(name, value)], RemoveAll(es[1..], name), other);
      RemoveAllValues(es[1..], name, other);
    } else {
      ValuesOfAppend([es[0]], Set(es[1..], name, value), other);
      SetValues(es[1..], name, value, other);
    }
  }

  /** After setting every pair of `src`, a name of `src` holds only its last value there. */
  lemma {:induction false} SetAllValues<V>(es: Entries<V>, src: Entries<V>, name: string)
    ensures ValuesOf(SetAll(es, src), name) ==
            match LastValue(src, name)
            case Some(v) => [v]
            case None => ValuesOf(es, name)
    decreases |src|
  {
    if src != [] {
      var last := src[|src| - 1];
      SetAllValues(es, src[..|src| - 1], name);
      SetValues(SetAll(es, src[..|src| - 1]), last.0, last.1, name);
    }
  }

  /** A property read after `{...es, ...src}`: `src` wins where it has the name. */
  lemma SpreadGet<V>(es: Entries<V>, src: Entries<V>, name: string)
    ensures Get(SetAll(es, src), name) == if LastValue(src, name).Some? then LastValue(src, name) else Get(es, name)
  {
    SetAllValues(es, src, name);
  }

  /** Appending a pair adds its value at the end of that name's values only. */
  lemma AppendValues<V>(es: Entries<V>, name: string, value: V, other: string)
    ensures ValuesOf(es + [(name, value)], other) == ValuesOf(es, other) + (if other == name then [value] else [])
  {
    ValuesOfAppend(es, [(name, value)], other);
  }

  /** A name's last value in a list is the last of its values. */
  lemma {:induction false} LastValueOf<V>(src: Entries<V>, name: string)
    ensures LastValue(src, name) == if ValuesOf(src, name) == [] then None else Some(ValuesOf(src, name)[|ValuesOf(src, name)| - 1])
    decreases |src|
  {
    if src != [] {
      var front := src[..|src| - 1];
      assert src == front + [src[|src| - 1]];
      ValuesOfAppend(front, [src[|src| - 1]], name);
      LastValueOf(front, name);
    }
  }

  /** `{...objs[0], ...objs[1], ...}`: every own property is copied, later objects winning. */
  function Spread<V>(objs: seq<Entries<V>>): Entries<V>
    decreases |objs|
  {
    if objs == [] then [] else SetAll(Spread(objs[..|objs| - 1]), objs[|objs| - 1])
  }

  /** The value `name` has in the last object of `objs` that holds it. */
  function LastWith<V>(objs: seq<Entries<V>>, name: string): Option<V>
    decreases |objs|
  {
    if objs == [] then None
    else
      var v := LastValue(objs[|objs| - 1], name);
      if v.Some? then v else LastWith(objs[..|objs| - 1], name)
  }

  /** A property read on a spread of objects gives the last object's value for that name. */
  lemma {:induction false} SpreadLastWins<V>(objs: seq<Entries<V>>, name: string)
    ensures Get(Spread(objs), name) == LastWith(objs, name)
    decreases |objs|
  {
    if objs != [] {
      SpreadLastWins(objs[..|objs| - 1], name);
      SpreadGet(Spread(objs[..|objs| - 1]), objs[|objs| - 1], name);
    }
  }

  lemma SpreadTwo<V>(a: Entries<V>, b: Entries<V>, name: string)
    ensures Get(Spread([a, b]), name) == if LastValue(b, name).Some? then LastValue(b, name) else LastValue(a, name)
  {
    SpreadLastWins([a, b], name);
    assert [a, b][..1] == [a];
    assert [a][..0] == [];
    assert LastWith([a], name) == LastValue(a, name);
  }

  /** The keys of a JavaScript object are distinct. */
  predicate UniqueNames<V>(es: Entries<V>) {
    forall i, j :: 0 <= i < j < |es| ==> es[i].0 != es[j].0
  }

  lemma {:induction false} NoValuesWithoutName<V>(es: Entries<V>, name: string)
    requires forall i :: 0 <= i < |es| ==> es[i].0 != name
    ensures ValuesOf(es, name) == []
    decreases |es|
  {
    if es != [] {
      NoValuesWithoutName(es[1..], name);
    }
  }

  lemma {:induction false} UniqueAtMostOne<V>(es: Entries<V>, name: string)
    requires UniqueNames(es)
    ensures |ValuesOf(es, name)| <= 1
    decreases |es|
  {
    if es != [] {
      assert UniqueNames(es[1..]) by {
        forall i, j | 0 <= i < j < |es[1..]| ensures es[1..][i].0 != es[1..][j].0 {
          assert es[1..][i] == es[i + 1] && es[1..][j] == es[j + 1];
        }
      }
      UniqueAtMostOne(es[1..], name);
      if es[0].0 == name {
        forall i | 0 <= i < |es[1..]| ensures es[1..][i].0 != name {
          assert es[1..][i] == es[i + 1];
        }
        NoValuesWithoutName(es[1..], name);
      }
    }
  }

  /** In an object, the first and the last entry of a name are the same entry. */
  lemma UniqueGetIsLast<V>(es: Entries<V>, name: string)
    requires UniqueNames(es)
    ensures Get(es, name) == LastValue(es, name)
  {
    UniqueAtMostOne(es, name);
    LastValueOf(es, name);
  }

  lemma ValuesOfPair<V>(x: (string, V), y: (string, V), name: string)
    ensures ValuesOf([x, y], name) == (if x.0 == name then [x.1] else []) + (if y.0 == name then [y.1] else [])
  {
    assert [x, y] == [x] + [y];
    ValuesOfAppend([x], [y], name);
    assert [x][1..] == [];
    assert [y][1..] == [];
  }

  /** A one-entry object has a value only under its own name. */
  lemma GetSingle<V>(n: string, v: V, name: string)
    ensures Get([(n, v)], name) == if n == name then Some(v) else None
  {
    ValuesOfCons([(n, v)], name);
    assert [(n, v)][1..] == [];
    assert ValuesOf([(n, v)], name) == if n == name then [v] else [];
  }

  /** Regrouping a concatenation, stated over plain sequences so that the solver does not
      expand the terms it is applied to. */
  lemma Regroup<T>(whole: seq<T>, mid: seq<T>, left: seq<T>, head: seq<T>, x: seq<T>, y: seq<T>)
    requires whole == head + mid && mid == x + y && left == head + x
    ensures whole == left + y
  {
  }

  /** The head and tail of a non-empty sequence followed by another. */
  lemma ConsAppend<T>(a: seq<T>, b: seq<T>)
    requires a != []
    ensures (a + b)[0] == a[0] && (a + b)[1..] == a[1..] + b
  {
  }

  /** The parts of a sequence made of a head, a middle and a tail. */
  lemma ThreeParts<T>(h: T, m: seq<T>, t: seq<T>)
    ensures ([h] + m + t)[0] == h
    ensures ([h] + m + t)[1..] == m + t
    ensures ([h] + m + t)[1..1 + |m|] == m
    ensures ([h] + m + t)[1 + |m|..] == t
  {
  }

  /** The parts of a sequence made of a head, a middle, a closing element and a tail. */
  lemma EnclosedParts<T>(o: T, m: seq<T>, c: T, t: seq<T>)
    ensures ([o] + m + [c] + t)[0] == o
    ensures ([o] + m + [c] + t)[1..] == m + [c] + t
    ensures ([o] + m + [c] + t)[1..1 + |m|] == m
    ensures ([o] + m + [c] + t)[2 + |m|..] == t
  {
  }

  /** The head and tail of a sequence built by prepending one element. */
  lemma SingleCons<T>(h: T, t: seq<T>)
    ensures ([h] + t)[0] == h && ([h] + t)[1..] == t
  {
  }

  /** A sequence cut around its first element and its element at `1 + j`. */
  lemma EnclosedSplit<T>(s: seq<T>, j: nat)
    requires 1 + j < |s|
    ensures s == [s[0]] + s[1..1 + j] + [s[1 + j]] + s[2 + j..]
  {
  }

  /** Cutting after the head and after `n` more elements reaches into `a` only. */
  lemma HeadRunAppend<T>(a: seq<T>, b: seq<T>, n: nat)
    requires 1 + n <= |a|
    ensures (a + b)[1..] == a[1..] + b
    ensures (a + b)[1..1 + n] == a[1..1 + n]
    ensures (a + b)[1 + n..] == a[1 + n..] + b
  {
  }
}
