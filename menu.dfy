/**
 * The Methods dropdown every page shows: one (id, title) entry per method of
 * the methods index, titled by the same alias chain as the `/methods` page
 * but falling back to the method's key, and ordered by lowercased title with
 * Python's stable `sorted`.
 */
module MethodsMenu {
  import opened Wrappers
  import opened PyValues
  import opened Ordering
  import opened Filters
  import MethodCatalog

  /** A dropdown entry. */
  datatype MenuItem = MenuItem(id: string, title: string)

  /** `val.get("method") or val.get("method_name_content") or val.get("method_name") or key` */
  function Title(key: string, val: Record): (t: Value)
    ensures t.Str? || t == Bool(true)
    ensures (forall i :: 0 <= i < |MethodCatalog.SERVICE_ALIASES| ==> !Truthy(Get(val, MethodCatalog.SERVICE_ALIASES[i], Null))) ==> t == Str(key)
    ensures forall i :: FirstTruthyAt(val, MethodCatalog.SERVICE_ALIASES, i) ==> t == Get(val, MethodCatalog.SERVICE_ALIASES[i], Null)
  {
    var t := Resolve(val, MethodCatalog.SERVICE_ALIASES, Str(key));
    assert Truthy(t) || t == Str(key) by {
      ResolveTruthyOrDefault(val, MethodCatalog.SERVICE_ALIASES, Str(key));
    }
    t
  }

  /** The alias chain yields a truthy field value or the default. */
  lemma {:induction false} ResolveTruthyOrDefault(r: Record, aliases: seq<string>, default: Value)
    ensures Truthy(Resolve(r, aliases, default)) || Resolve(r, aliases, default) == default
  {
    if aliases != [] {
      ResolveTruthyOrDefault(r, aliases[1..], default);
    }
  }

  /**
   * The keys `sorted` computes before it orders anything: the entries'
   * lowercased titles, or None when some title is not a string and
   * `.lower()` raises.
   */
  function MenuItems(entries: seq<(string, Value)>): (r: Option<seq<MenuItem>>)
    ensures r.None? <==> exists i :: 0 <= i < |entries| && !entries[i].1.Str?
    ensures r.Some? ==> |r.value| == |entries| && forall i :: 0 <= i < |entries| ==> r.value[i] == MenuItem(entries[i].0, entries[i].1.s)
  {
    if entries == [] then Some([])
    else
      var rest := MenuItems(entries[1..]);
      if !entries[0].1.Str? then None
      else if rest.None? then
        assert forall i :: 0 <= i < |entries| - 1 ==> entries[1..][i] == entries[i + 1];
        None
      else Some([MenuItem(entries[0].0, entries[0].1.s)] + rest.value)
  }

  // ------------------------------------------------ the stable sort

  /** The menu's sort key, `x["title"].lower()`. */
  function Key(m: MenuItem): string {
    Lower(m.title)
  }

  /** No element is preceded by one with a greater key. */
  predicate SortedBy<T>(s: seq<T>, key: T -> string) {
    forall i, j :: 0 <= i < j < |s| ==> !StrLt(key(s[j]), key(s[i]))
  }

  /** Puts `x` after every element whose key is not greater than its own. */
  function InsertBy<T>(s: seq<T>, x: T, key: T -> string): (r: seq<T>)
    ensures |r| == |s| + 1
  {
    if s == [] then [x]
    else if StrLt(key(x), key(s[0])) then [x] + s
    else [s[0]] + InsertBy(s[1..], x, key)
  }

  /** `sorted(s, key=key)`: insertion of each element in turn. */
  function SortBy<T>(s: seq<T>, key: T -> string): (r: seq<T>)
    ensures |r| == |s|
  {
    if s == [] then []
    else InsertBy(SortBy(s[..|s| - 1], key), s[|s| - 1], key)
  }

  /** Insertion adds exactly the one element. */
  lemma {:induction false} InsertPermutes<T>(s: seq<T>, x: T, key: T -> string)
    ensures multiset(InsertBy(s, x, key)) == multiset(s) + multiset{x}
  {
    if s != [] && !StrLt(key(x), key(s[0])) {
      InsertPermutes(s[1..], x, key);
      assert s == [s[0]] + s[1..];
    }
  }

  /** The sort is a permutation. */
  lemma {:induction false} SortPermutes<T>(s: seq<T>, key: T -> string)
    ensures multiset(SortBy(s, key)) == multiset(s)
  {
    if s != [] {
      SortPermutes(s[..|s| - 1], key);
      InsertPermutes(SortBy(s[..|s| - 1], key), s[|s| - 1], key);
      assert s == s[..|s| - 1] + [s[|s| - 1]];
    }
  }

  lemma {:induction false} InsertKeepsSorted<T>(s: seq<T>, x: T, key: T -> string)
    requires SortedBy(s, key)
    ensures SortedBy(InsertBy(s, x, key), key)
  {
    var r := InsertBy(s, x, key);
    if s == [] {
    } else if StrLt(key(x), key(s[0])) {
      forall j | 0 < j < |r|
        ensures !StrLt(key(r[j]), key(x))
      {
        assert r[j] == s[j - 1];
        if StrLt(key(r[j]), key(x)) {
          StrLtTransitive(key(r[j]), key(x), key(s[0]));
          if j == 1 {
            StrLtIrreflexive(key(s[0]));
          }
        }
      }
    } else {
      var tail := InsertBy(s[1..], x, key);
      InsertKeepsSorted(s[1..], x, key);
      InsertPermutes(s[1..], x, key);
      forall j | 0 <= j < |tail|
        ensures !StrLt(key(tail[j]), key(s[0]))
      {
        assert tail[j] in multiset(tail);
        if tail[j] != x {
          assert tail[j] in s[1..];
        }
      }
      assert r == [s[0]] + tail;
    }
  }

  /** The result of the sort is in key order. */
  lemma {:induction false} SortIsSorted<T>(s: seq<T>, key: T -> string)
    ensures SortedBy(SortBy(s, key), key)
  {
    if s != [] {
      SortIsSorted(s[..|s| - 1], key);
      InsertKeepsSorted(SortBy(s[..|s| - 1], key), s[|s| - 1], key);
    }
  }

  /** The elements whose key is `k`. */
  function HasKey<T>(key: T -> string, k: string): T -> bool {
    x => key(x) == k
  }

  /** Keys of a sorted list that start above `k` stay above it. */
  lemma NoKeyBelowHead<T>(s: seq<T>, key: T -> string, k: string)
    requires SortedBy(s, key) && s != [] && StrLt(k, key(s[0]))
    ensures Keep(s, HasKey(key, k)) == []
  {
    forall i | 0 <= i < |s|
      ensures key(s[i]) != k
    {
      if i == 0 {
        StrLtIrreflexive(k);
      }
    }
  }

  /** Inserting into a sorted list puts `x` after every element of its own key. */
  lemma {:induction false} InsertIsStable<T>(s: seq<T>, x: T, key: T -> string, k: string)
    requires SortedBy(s, key)
    ensures Keep(InsertBy(s, x, key), HasKey(key, k)) == Keep(s, HasKey(key, k)) + (if key(x) == k then [x] else [])
  {
    if s == [] {
    } else if StrLt(key(x), key(s[0])) {
      if key(x) == k {
        NoKeyBelowHead(s, key, k);
      }
    } else {
      InsertIsStable(s[1..], x, key, k);
      assert s == [s[0]] + s[1..];
    }
  }

  /**
   * The sort is stable: the elements sharing a key keep their original
   * relative order.
   */
  lemma {:induction false} SortIsStable<T>(s: seq<T>, key: T -> string, k: string)
    ensures Keep(SortBy(s, key), HasKey(key, k)) == Keep(s, HasKey(key, k))
  {
    if s != [] {
      var init, last := s[..|s| - 1], s[|s| - 1];
      SortIsStable(init, key, k);
      SortIsSorted(init, key);
      InsertIsStable(SortBy(init, key), last, key, k);
      KeepLast(s, HasKey(key, k));
    }
  }

  // ------------------------------------------------ the menu

  /** The (id, title) pairs the loop appends, titles not yet lowercased. */
  function Titled(index: seq<(string, Record)>): (r: seq<(string, Value)>)
    ensures |r| == |index|
    ensures forall i :: 0 <= i < |index| ==> r[i] == (index[i].0, Title(index[i].0, index[i].1))
  {
    seq(|index|, i requires 0 <= i < |index| => (index[i].0, Title(index[i].0, index[i].1)))
  }

  /**
   * `inject_methods_menu`: `index` is the decoded methods index in key order,
   * or None when the fetch did not answer 200 or the body is not a JSON
   * object. Any failure, including a title that is not a string, gives the
   * empty menu.
   */
  method Menu(index: Option<seq<(string, Record)>>) returns (menu: seq<MenuItem>)
    ensures index.None? ==> menu == []
    ensures index.Some? && MenuItems(Titled(index.value)).None? ==> menu == []
    ensures index.Some? && MenuItems(Titled(index.value)).Some? ==>
              var items := MenuItems(Titled(index.value)).value;
              && multiset(menu) == multiset(items)
              && SortedBy(menu, Key)
              && forall k :: Keep(menu, HasKey(Key, k)) == Keep(items, HasKey(Key, k))
  {
    menu := [];
    if index.None? {
      return;
    }
    var entries := index.value;
    var titled: seq<(string, Value)> := [];
    for i := 0 to |entries|
      invariant titled == Titled(entries[..i])
    {
      var key, val := entries[i].0, entries[i].1;
      assert entries[..i + 1] == entries[..i] + [(key, val)];
      titled := titled + [(key, Title(key, val))];
    }
    assert entries[..|entries|] == entries;
    var items := MenuItems(titled);
    if items.Some? {
      menu := SortBy(items.value, Key);
      SortPermutes(items.value, Key);
      SortIsSorted(items.value, Key);
      forall k
        ensures Keep(menu, HasKey(Key, k)) == Keep(items.value, HasKey(Key, k))
      {
        SortIsStable(items.value, Key, k);
      }
    }
  }
}
