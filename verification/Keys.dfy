/** The keys of the handler map: a procedure name and the text of its parameter
    types, and their order. */
module Keys {
  import opened Bytes
  import opened Codec

  type Text = seq<byte>

  datatype Key = Key(name: Text, params: Text)

  // ----- The parameter text --------------------------------------------------------

  predicate NoSeparator(types: seq<Text>) {
    forall t :: t in types ==> SEPARATOR !in t
  }

  predicate EndsSeparated(x: Text) {
    x != [] ==> x[|x| - 1] == SEPARATOR
  }

  lemma CutInside(x: Text, s: Text, y: Text, t: Text)
    requires x + s == y + t && |x| < |y|
    ensures |y| - 1 - |x| < |s| && y[|y| - 1] == s[|y| - 1 - |x|]
  {
    assert (x + s)[|y| - 1] == (y + t)[|y| - 1];
  }

  lemma SameCut(x: Text, s: Text, y: Text, t: Text)
    requires EndsSeparated(x) && EndsSeparated(y) && SEPARATOR !in s && SEPARATOR !in t
    requires x + s == y + t
    ensures x == y && s == t
  {
    if |x| < |y| {
      CutInside(x, s, y, t);
      assert false;
    } else if |y| < |x| {
      CutInside(y, t, x, s);
      assert false;
    } else {
      assert x == (x + s)[..|x|] && y == (y + t)[..|y|] && s == (x + s)[|x|..] && t == (y + t)[|y|..];
    }
  }

  lemma {:induction false} SameText(a: seq<Text>, b: seq<Text>)
    requires NoSeparator(a) && NoSeparator(b) && ParamsText(a) == ParamsText(b)
    ensures a == b
  {
    if a == [] || b == [] {
      assert |ParamsText(a)| == 0;
    } else {
      var ia, la, ib, lb := a[..|a| - 1], a[|a| - 1], b[..|b| - 1], b[|b| - 1];
      var text := ParamsText(a);
      assert text == ParamsText(ia) + la + [SEPARATOR] && text == ParamsText(ib) + lb + [SEPARATOR];
      assert text[..|text| - 1] == ParamsText(ia) + la && text[..|text| - 1] == ParamsText(ib) + lb;
      SameCut(ParamsText(ia), la, ParamsText(ib), lb);
      SameText(ia, ib);
      assert a == ia + [la] && b == ib + [lb];
    }
  }

  /** Without separators inside type names, the texts of two parameter lists are equal
      exactly when the lists are. */
  lemma TextNamesTypes(a: seq<Text>, b: seq<Text>)
    requires NoSeparator(a) && NoSeparator(b)
    ensures ParamsText(a) == ParamsText(b) <==> a == b
  {
    if ParamsText(a) == ParamsText(b) {
      SameText(a, b);
    }
  }

  /** The check on type names is needed: one name with a separator reads like two. */
  lemma SeparatorCollides(a: Text, b: Text)
    ensures ParamsText([a + [SEPARATOR] + b]) == ParamsText([a, b])
    ensures [a + [SEPARATOR] + b] != [a, b]
  {
    var one, two := [a + [SEPARATOR] + b], [a, b];
    assert one[..0] == [] && two[..1] == [a] && [a][..0] == [];
    assert ParamsText([a]) == a + [SEPARATOR];
    assert |one| == 1 && |two| == 2;
  }

  // ----- The order -------------------------------------------------------------------

  /** `char` may be signed. */
  function CharValue(x: byte, signed: bool): int {
    if signed && x >= 128 then x - 256 else x
  }

  /** Lexicographic comparison of the characters. */
  predicate TextLess(a: Text, b: Text, signed: bool) {
    if b == [] then false
    else if a == [] then true
    else if a[0] != b[0] then CharValue(a[0], signed) < CharValue(b[0], signed)
    else TextLess(a[1..], b[1..], signed)
  }

  /** The map's order compares names first. */
  predicate KeyLess(k: Key, l: Key, signed: bool) {
    if k.name == l.name then TextLess(k.params, l.params, signed) else TextLess(k.name, l.name, signed)
  }

  /** The texts differ first at `i`, and `a` is smaller there. */
  predicate SmallerAt(a: Text, b: Text, i: nat, signed: bool) {
    i < |a| && i < |b| && a[..i] == b[..i] && CharValue(a[i], signed) < CharValue(b[i], signed)
  }

  lemma SmallerLater(a: Text, b: Text, i: nat, signed: bool)
    requires a != [] && b != [] && a[0] == b[0]
    ensures SmallerAt(a, b, i + 1, signed) <==> SmallerAt(a[1..], b[1..], i, signed)
  {
    if i + 1 <= |a| && i + 1 <= |b| {
      assert a[..i + 1] == [a[0]] + a[1..][..i] && b[..i + 1] == [b[0]] + b[1..][..i];
      assert a[..i + 1][1..] == a[1..][..i] && b[..i + 1][1..] == b[1..][..i];
    }
  }

  /** A text comes first when it is the beginning of the other, or smaller in the first
      character that differs. */
  lemma {:induction false} TextLessExactly(a: Text, b: Text, signed: bool)
    ensures TextLess(a, b, signed) <==> a < b || exists i: nat :: SmallerAt(a, b, i, signed)
  {
    if a != [] && b != [] && a[0] == b[0] {
      var c, d := a[1..], b[1..];
      TextLessExactly(c, d, signed);
      assert a == [a[0]] + c && b == [b[0]] + d;
      hide SmallerAt, CharValue;
      if i: nat :| SmallerAt(c, d, i, signed) {
        SmallerLater(a, b, i, signed);
      }
      if i: nat :| SmallerAt(a, b, i, signed) && i > 0 {
        SmallerLater(a, b, i - 1, signed);
      }
      NotFirst(a, b, signed);
    } else if a != [] && b != [] {
      assert SmallerAt(a, b, 0, signed) <==> CharValue(a[0], signed) < CharValue(b[0], signed);
      forall i: nat | i > 0
        ensures !SmallerAt(a, b, i, signed)
      {
        if i < |a| && i < |b| {
          assert a[..i][0] == a[0] && b[..i][0] == b[0];
        }
      }
    }
  }

  lemma NotFirst(a: Text, b: Text, signed: bool)
    requires a != [] && b != [] && a[0] == b[0]
    ensures !SmallerAt(a, b, 0, signed)
  {
  }

  /** The order of keys is that of the names, and of the parameters where the names agree. */
  lemma KeyLessExactly(k: Key, l: Key, signed: bool)
    ensures KeyLess(k, l, signed) <==> TextLess(k.name, l.name, signed) || (k.name == l.name && TextLess(k.params, l.params, signed))
  {
    TextTotal(k.name, l.name, signed);
  }

  lemma {:induction false} TextTotal(a: Text, b: Text, signed: bool)
    ensures TextLess(a, b, signed) ==> !TextLess(b, a, signed) && a != b
    ensures !TextLess(a, b, signed) && !TextLess(b, a, signed) ==> a == b
  {
    if a != [] && b != [] && a[0] == b[0] {
      TextTotal(a[1..], b[1..], signed);
      assert a == [a[0]] + a[1..] && b == [b[0]] + b[1..];
    }
  }

  lemma {:induction false} TextTransitive(a: Text, b: Text, c: Text, signed: bool)
    requires TextLess(a, b, signed) && TextLess(b, c, signed)
    ensures TextLess(a, c, signed)
  {
    if a != [] && a[0] == b[0] && b[0] == c[0] {
      TextTransitive(a[1..], b[1..], c[1..], signed);
    }
  }

  /** The order of keys is strict and total, and the keys that it does not separate are
      equal byte by byte, however `char` compares. */
  lemma KeyOrder(k: Key, l: Key, m: Key, signed: bool)
    ensures !KeyLess(k, k, signed)
    ensures KeyLess(k, l, signed) && KeyLess(l, m, signed) ==> KeyLess(k, m, signed)
    ensures !KeyLess(k, l, signed) && !KeyLess(l, k, signed) <==> k == l
    ensures KeyLess(k, l, signed) ==> !KeyLess(l, k, signed)
  {
    TextTotal(k.name, k.name, signed);
    TextTotal(k.params, k.params, signed);
    TextTotal(k.name, l.name, signed);
    TextTotal(k.params, l.params, signed);
    TextTotal(l.name, m.name, signed);
    if KeyLess(k, l, signed) && KeyLess(l, m, signed) {
      if k.name == l.name && l.name == m.name {
        TextTransitive(k.params, l.params, m.params, signed);
      } else if k.name != l.name && l.name != m.name {
        TextTransitive(k.name, l.name, m.name, signed);
        TextTotal(k.name, m.name, signed);
      }
    }
  }

  /** A walk through the map. */
  ghost predicate Ascending(ks: seq<Key>, signed: bool) {
    forall i, j :: 0 <= i < j < |ks| ==> KeyLess(ks[i], ks[j], signed)
  }

  lemma {:induction false} Smallest(ks: set<Key>, signed: bool) returns (k: Key)
    requires ks != {}
    ensures k in ks && forall l :: l in ks && l != k ==> KeyLess(k, l, signed)
  {
    k :| k in ks;
    if ks != {k} {
      var m := Smallest(ks - {k}, signed);
      KeyOrder(k, m, m, signed);
      if KeyLess(m, k, signed) {
        k := m;
      } else {
        forall l | l in ks && l != k
          ensures KeyLess(k, l, signed)
        {
          KeyOrder(k, m, l, signed);
        }
      }
    }
  }

  lemma LastIsGreatest(a: seq<Key>, k: Key, signed: bool)
    requires Ascending(a, signed) && k in a && k != a[|a| - 1]
    ensures KeyLess(k, a[|a| - 1], signed)
  {
  }

  lemma WithoutLast(a: seq<Key>, signed: bool)
    requires Ascending(a, signed) && a != []
    ensures forall k :: k in a[..|a| - 1] <==> k in a && k != a[|a| - 1]
  {
    var last := a[|a| - 1];
    assert a == a[..|a| - 1] + [last];
    KeyOrder(last, last, last, signed);
  }

  lemma BothOrNone(a: seq<Key>, b: seq<Key>)
    requires forall k :: k in a <==> k in b
    ensures a == [] <==> b == []
  {
    if a != [] {
      assert a[0] in b;
    }
    if b != [] {
      assert b[0] in a;
    }
  }

  /** There is one walk through a set of keys. */
  lemma {:induction false} OneWalk(a: seq<Key>, b: seq<Key>, signed: bool)
    requires Ascending(a, signed) && Ascending(b, signed) && forall k :: k in a <==> k in b
    ensures a == b
  {
    BothOrNone(a, b);
    if a != [] {
      var m, n := a[|a| - 1], b[|b| - 1];
      assert m in b && n in a;
      if m != n {
        LastIsGreatest(a, n, signed);
        LastIsGreatest(b, m, signed);
        KeyOrder(m, n, m, signed);
        assert false;
      }
      var c, d := a[..|a| - 1], b[..|b| - 1];
      WithoutLast(a, signed);
      WithoutLast(b, signed);
      forall k | k in c
        ensures k in d
      {
        assert k in a && k != m;
      }
      forall k | k in d
        ensures k in c
      {
        assert k in b && k != n;
      }
      OneWalk(c, d, signed);
      assert a == c + [m] && b == d + [n];
    }
  }

  /** Both sides of a call make the same key, and only the right one: a call finds the
      handler whose name and parameter types are its own. */
  lemma KeyNamesHandler(name: Text, types: seq<Text>, name2: Text, types2: seq<Text>)
    requires NoSeparator(types) && NoSeparator(types2)
    ensures Key(name, ParamsText(types)) == Key(name2, ParamsText(types2)) <==> name == name2 && types == types2
  {
    TextNamesTypes(types, types2);
  }
}
