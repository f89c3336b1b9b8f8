/**
 * The GET encoding of request parameters (index.js, buildQueryString): a `?` followed by
 * one `name=value&` segment per scalar entry and one `key[]=value&` segment per array item,
 * in iteration order, values passed through encodeURIComponent and keys written as they are.
 */
module Query {
  import opened Js
  import opened Params
  import opened Uri

  /** A segment as written: its name (`key` or `key[]`) and its encoded value. */
  type Pair = (string, string)

  function ItemPairs(key: string, items: seq<Value>): seq<Pair>
  {
    seq(|items|, i requires 0 <= i < |items| => (key + "[]", EncodeURIComponent(ToString(items[i]))))
  }

  /** No value contains `&` or `=`: encoding leaves only unreserved characters and `%`. */
  predicate Separated(prs: seq<Pair>)
  {
    forall i :: 0 <= i < |prs| ==> '&' !in prs[i].1 && '=' !in prs[i].1
  }

  function EntryPairs(key: string, v: Value): (r: seq<Pair>)
    ensures Separated(r)
  {
    assert !Unreserved('&') && !Unreserved('=');
    match v
    case Scalar(_) => [(key, EncodeURIComponent(ToString(v)))]
    case List(items) => ItemPairs(key, items)
  }

  /** The segments of a whole parameter list, entry after entry. */
  function Pairs(ps: Params): (r: seq<Pair>)
    ensures Separated(r)
  {
    if ps == [] then [] else
      var a, b := EntryPairs(ps[0].0, ps[0].1), Pairs(ps[1..]);
      SeparatedAppend(a, b);
      a + b
  }

  lemma SeparatedAppend(a: seq<Pair>, b: seq<Pair>)
    requires Separated(a) && Separated(b)
    ensures Separated(a + b)
  {
    forall i | 0 <= i < |a + b| ensures '&' !in (a + b)[i].1 && '=' !in (a + b)[i].1 {
      if i >= |a| {
        assert (a + b)[i] == b[i - |a|];
      }
    }
  }

  function Segment(p: Pair): string
  {
    p.0 + "=" + p.1 + "&"
  }

  function Joined(prs: seq<Pair>): string
  {
    if prs == [] then "" else Segment(prs[0]) + Joined(prs[1..])
  }

  /** The string buildQueryString returns. */
  function QueryString(ps: Params): (r: string)
    ensures |r| >= 1 && r[0] == '?'
  {
    "?" + Joined(Pairs(ps))
  }

  lemma {:induction false} PairsAppend(a: Params, b: Params)
    ensures Pairs(a + b) == Pairs(a) + Pairs(b)
  {
    if a == [] {
      assert a + b == b;
    } else {
      assert (a + b)[1..] == a[1..] + b;
      PairsAppend(a[1..], b);
    }
  }

  lemma {:induction false} JoinedAppend(a: seq<Pair>, b: seq<Pair>)
    ensures Joined(a + b) == Joined(a) + Joined(b)
  {
    if a == [] {
      assert a + b == b;
    } else {
      assert (a + b)[1..] == a[1..] + b;
      JoinedAppend(a[1..], b);
    }
  }

  /** buildQueryString: the nested loop of index.js computes QueryString. */
  method BuildQueryString(params: Params) returns (q: string)
    ensures q == QueryString(params)
  {
    q := "?";
    var i := 0;
    assert params[..0] == [];
    while i < |params|
      invariant 0 <= i <= |params|
      invariant q == "?" + Joined(Pairs(params[..i]))
    {
      ghost var done := q;
      q := AppendEntry(q, params[i].0, params[i].1);
      EntryStep(params, i, done, q);
      i := i + 1;
    }
    assert params[..i] == params;
  }

  /** One turn of the outer loop: an array's items, or the single `key=value&` of a scalar. */
  method AppendEntry(q0: string, key: string, val: Value) returns (q: string)
    ensures q == q0 + Joined(EntryPairs(key, val))
  {
    if val.List? {
      q := AppendItems(q0, key, val.items);
    } else {
      ScalarSegment(key, val);
      q := q0 + key + "=" + EncodeURIComponent(ToString(val)) + "&";
    }
  }

  /** The inner loop of buildQueryString: one `key[]=item&` segment per item. */
  method AppendItems(q0: string, key: string, items: seq<Value>) returns (q: string)
    ensures q == q0 + Joined(ItemPairs(key, items))
  {
    q := q0;
    var j := 0;
    assert items[..0] == [];
    while j < |items|
      invariant 0 <= j <= |items|
      invariant q == q0 + Joined(ItemPairs(key, items[..j]))
    {
      ItemStep(q0, key, items, j, q);
      q := q + key + "[]=" + EncodeURIComponent(ToString(items[j])) + "&";
      j := j + 1;
    }
    assert items[..j] == items;
  }

  lemma ItemStep(done: string, key: string, items: seq<Value>, j: nat, q: string)
    requires j < |items|
    requires q == done + Joined(ItemPairs(key, items[..j]))
    ensures q + key + "[]=" + EncodeURIComponent(ToString(items[j])) + "&"
      == done + Joined(ItemPairs(key, items[..j + 1]))
  {
    var p := (key + "[]", EncodeURIComponent(ToString(items[j])));
    ItemPairsSnoc(key, items, j);
    SegmentStep(done, q, ItemPairs(key, items[..j]), p);
    ItemSegment(q, key, p.1);
  }

  lemma ItemPairsSnoc(key: string, items: seq<Value>, j: nat)
    requires j < |items|
    ensures ItemPairs(key, items[..j + 1])
      == ItemPairs(key, items[..j]) + [(key + "[]", EncodeURIComponent(ToString(items[j])))]
  {
  }

  lemma ItemSegment(q: string, key: string, e: string)
    ensures q + key + "[]=" + e + "&" == q + Segment((key + "[]", e))
  {
  }

  /** Appending one more segment to a string that ends with the segments so far. */
  lemma SegmentStep(done: string, q: string, prs: seq<Pair>, p: Pair)
    requires q == done + Joined(prs)
    ensures q + Segment(p) == done + Joined(prs + [p])
  {
    JoinedAppend(prs, [p]);
    assert Joined([p]) == Segment(p) by {
      assert [p][1..] == [];
    }
    ConcatAssoc(done, Joined(prs), Segment(p));
  }

  lemma ConcatAssoc(a: string, b: string, c: string)
    ensures (a + b) + c == a + (b + c)
  {
  }

  lemma EntryStep(ps: Params, i: nat, done: string, q: string)
    requires i < |ps|
    requires done == "?" + Joined(Pairs(ps[..i]))
    requires q == done + Joined(EntryPairs(ps[i].0, ps[i].1))
    ensures q == "?" + Joined(Pairs(ps[..i + 1]))
  {
    EntriesPairs(ps, i);
    JoinedAppend(Pairs(ps[..i]), EntryPairs(ps[i].0, ps[i].1));
    ConcatAssoc("?", Joined(Pairs(ps[..i])), Joined(EntryPairs(ps[i].0, ps[i].1)));
  }

  lemma EntriesPairs(ps: Params, i: nat)
    requires i < |ps|
    ensures Pairs(ps[..i + 1]) == Pairs(ps[..i]) + EntryPairs(ps[i].0, ps[i].1)
  {
    assert ps[..i + 1] == ps[..i] + [ps[i]];
    PairsAppend(ps[..i], [ps[i]]);
    PairsOne(ps[i]);
  }

  lemma PairsOne(e: (string, Value))
    ensures Pairs([e]) == EntryPairs(e.0, e.1)
  {
    assert [e][1..] == [];
  }

  lemma ScalarSegment(key: string, v: Value)
    requires v.Scalar?
    ensures Joined(EntryPairs(key, v)) == key + "=" + EncodeURIComponent(ToString(v)) + "&"
  {
    var p := (key, EncodeURIComponent(ToString(v)));
    assert EntryPairs(key, v) == [p];
    assert [p][1..] == [];
  }

  // ---- the shape of the query string ----

  /**
   * The string always starts with `?`; it is exactly "?" when no segment is produced (an
   * empty list, or only empty arrays) and otherwise ends with the tolerated trailing `&`.
   */
  lemma QueryStringShape(ps: Params)
    ensures |QueryString(ps)| >= 1 && QueryString(ps)[0] == '?'
    ensures ps == [] ==> QueryString(ps) == "?"
    ensures QueryString(ps) == "?" <==> Pairs(ps) == []
    ensures Pairs(ps) != [] ==> QueryString(ps)[|QueryString(ps)| - 1] == '&'
  {
    if Pairs(ps) != [] {
      JoinedEndsWithAmp(Pairs(ps));
    }
  }

  lemma {:induction false} JoinedEndsWithAmp(prs: seq<Pair>)
    requires prs != []
    ensures |Joined(prs)| > 0 && Joined(prs)[|Joined(prs)| - 1] == '&'
  {
    if prs[1..] != [] {
      JoinedEndsWithAmp(prs[1..]);
    }
  }

  /** Segments appear entry by entry, in iteration order. */
  lemma {:induction false} PairsInOrder(ps: Params, i: nat)
    requires i < |ps|
    ensures Pairs(ps) == Pairs(ps[..i]) + EntryPairs(ps[i].0, ps[i].1) + Pairs(ps[i + 1..])
  {
    assert ps == ps[..i] + [ps[i]] + ps[i + 1..];
    PairsAppend(ps[..i] + [ps[i]], ps[i + 1..]);
    PairsAppend(ps[..i], [ps[i]]);
  }

  /** An empty array contributes nothing: dropping it leaves the query string unchanged. */
  lemma EmptyArrayVanishes(ps: Params, i: nat)
    requires i < |ps| && ps[i].1 == List([])
    ensures QueryString(ps[..i] + ps[i + 1..]) == QueryString(ps)
  {
    var short := ps[..i] + ps[i + 1..];
    assert Pairs(short) == Pairs(ps) by {
      PairsInOrder(ps, i);
      NoItemsNoPairs(ps[i].0);
      PairsAppend(ps[..i], ps[i + 1..]);
    }
  }

  lemma NoItemsNoPairs(key: string)
    ensures EntryPairs(key, List([])) == []
  {
  }

  // ---- what a reader of the query string finds under each name ----

  /** The values of the segments named `name`, in order. */
  function ValuesNamed(prs: seq<Pair>, name: string): seq<string>
  {
    if prs == [] then []
    else (if prs[0].0 == name then [prs[0].1] else []) + ValuesNamed(prs[1..], name)
  }

  lemma {:induction false} ValuesNamedAppend(a: seq<Pair>, b: seq<Pair>, name: string)
    ensures ValuesNamed(a + b, name) == ValuesNamed(a, name) + ValuesNamed(b, name)
  {
    if a == [] {
      assert a + b == b;
    } else {
      var head := if a[0].0 == name then [a[0].1] else [];
      assert (a + b)[0] == a[0] && (a + b)[1..] == a[1..] + b;
      ValuesNamedAppend(a[1..], b, name);
      assert ValuesNamed(a + b, name) == head + ValuesNamed(a[1..] + b, name);
      assert ValuesNamed(a, name) == head + ValuesNamed(a[1..], name);
    }
  }

  lemma {:induction false} ValuesNamedItems(key: string, items: seq<Value>, name: string)
    ensures ValuesNamed(ItemPairs(key, items), name) ==
      if name == key + "[]" then seq(|items|, n requires 0 <= n < |items| => EncodeURIComponent(ToString(items[n])))
      else []
  {
    if items != [] {
      ValuesNamedItems(key, items[1..], name);
      assert ItemPairs(key, items)[1..] == ItemPairs(key, items[1..]);
    }
  }

  /** No key is another key with `[]` appended (true whenever no key ends in `[]`). */
  predicate NoBracketClash(ps: Params)
  {
    forall i, j :: 0 <= i < |ps| && 0 <= j < |ps| ==> ps[i].0 + "[]" != ps[j].0
  }

  /** What the entry of another key contributes under `name`, for the names `key`, `key[]` of entry `i`. */
  lemma OtherEntryContributesNothing(ps: Params, i: nat, j: nat, name: string)
    requires DistinctKeys(ps) && NoBracketClash(ps)
    requires i < |ps| && j < |ps| && i != j
    requires name == ps[i].0 || name == ps[i].0 + "[]"
    ensures ValuesNamed(EntryPairs(ps[j].0, ps[j].1), name) == []
  {
    if ps[j].1.List? {
      ValuesNamedItems(ps[j].0, ps[j].1.items, name);
      StripBrackets(ps[i].0);
      StripBrackets(ps[j].0);
      assert ps[j].0 + "[]" != ps[i].0;
    }
  }

  lemma StripBrackets(key: string)
    ensures |key + "[]"| == |key| + 2 && (key + "[]")[..|key|] == key
  {
  }

  /** The values found under `name` come from entry `i` alone. */
  lemma {:induction false} ValuesNamedFromEntry(ps: Params, i: nat, name: string)
    requires DistinctKeys(ps) && NoBracketClash(ps)
    requires i < |ps|
    requires name == ps[i].0 || name == ps[i].0 + "[]"
    ensures ValuesNamed(Pairs(ps), name) == ValuesNamed(EntryPairs(ps[i].0, ps[i].1), name)
  {
    if i == 0 {
      ValuesNamedAppend(EntryPairs(ps[0].0, ps[0].1), Pairs(ps[1..]), name);
      NothingAfter(ps, 1, i, name);
    } else {
      OtherEntryContributesNothing(ps, i, 0, name);
      ValuesNamedAppend(EntryPairs(ps[0].0, ps[0].1), Pairs(ps[1..]), name);
      TailFacts(ps);
      ValuesNamedFromEntry(ps[1..], i - 1, name);
    }
  }

  lemma TailFacts(ps: Params)
    requires ps != [] && DistinctKeys(ps) && NoBracketClash(ps)
    ensures DistinctKeys(ps[1..]) && NoBracketClash(ps[1..])
  {
    DistinctTail(ps);
    forall a, b | 0 <= a < |ps[1..]| && 0 <= b < |ps[1..]| ensures ps[1..][a].0 + "[]" != ps[1..][b].0 {
      assert ps[1..][a] == ps[a + 1] && ps[1..][b] == ps[b + 1];
    }
  }

  /** The entries from `from` on, none of them entry `i`, contribute nothing under `name`. */
  lemma NothingAfter(ps: Params, from: nat, i: nat, name: string)
    requires DistinctKeys(ps) && NoBracketClash(ps)
    requires i < from <= |ps|
    requires name == ps[i].0 || name == ps[i].0 + "[]"
    ensures ValuesNamed(Pairs(ps[from..]), name) == []
  {
    forall j | from <= j < |ps|
      ensures ValuesNamed(EntryPairs(ps[j].0, ps[j].1), name) == []
    {
      OtherEntryContributesNothing(ps, i, j, name);
    }
    NothingFrom(ps, from, name);
  }

  lemma {:induction false} NothingFrom(ps: Params, from: nat, name: string)
    requires from <= |ps|
    requires forall j :: from <= j < |ps| ==> ValuesNamed(EntryPairs(ps[j].0, ps[j].1), name) == []
    ensures ValuesNamed(Pairs(ps[from..]), name) == []
    decreases |ps| - from
  {
    if from < |ps| {
      var t := ps[from..];
      assert t[0] == ps[from] && t[1..] == ps[from + 1..];
      assert Pairs(t) == EntryPairs(ps[from].0, ps[from].1) + Pairs(ps[from + 1..]);
      ValuesNamedAppend(EntryPairs(ps[from].0, ps[from].1), Pairs(ps[from + 1..]), name);
      NothingFrom(ps, from + 1, name);
    }
  }

  /**
   * An array entry `key: items` puts exactly one `key[]` value per item, in array order, in
   * the query string, and no plain `key` value.
   */
  lemma ArrayEntryValues(ps: Params, i: nat)
    requires DistinctKeys(ps) && NoBracketClash(ps)
    requires i < |ps| && ps[i].1.List?
    ensures var key, items := ps[i].0, ps[i].1.items;
      ValuesNamed(Pairs(ps), key + "[]")
        == seq(|items|, n requires 0 <= n < |items| => EncodeURIComponent(ToString(items[n])))
      && ValuesNamed(Pairs(ps), key) == []
  {
    var key, items := ps[i].0, ps[i].1.items;
    ValuesNamedFromEntry(ps, i, key + "[]");
    ValuesNamedItems(key, items, key + "[]");
    ValuesNamedFromEntry(ps, i, key);
    ValuesNamedItems(key, items, key);
    assert key != key + "[]" by {
      assert |key| != |key + "[]"|;
    }
  }

  /** A scalar entry `key: v` puts exactly the value `encodeURIComponent(String(v))` under `key`. */
  lemma ScalarEntryValue(ps: Params, i: nat)
    requires DistinctKeys(ps) && NoBracketClash(ps)
    requires i < |ps| && ps[i].1.Scalar?
    ensures ValuesNamed(Pairs(ps), ps[i].0) == [EncodeURIComponent(ToString(ps[i].1))]
  {
    ValuesNamedFromEntry(ps, i, ps[i].0);
  }

  /**
   * A name that no key turns into by appending `[]` is given values only by the entry of that
   * key, and only when that entry is a scalar.
   */
  lemma {:induction false} ValuesOfUnbracketedName(ps: Params, name: string)
    requires DistinctKeys(ps)
    requires forall j :: 0 <= j < |ps| ==> ps[j].0 + "[]" != name
    ensures ValuesNamed(Pairs(ps), name) ==
      match Lookup(ps, name)
      case Some(v) => if v.Scalar? then [EncodeURIComponent(ToString(v))] else []
      case None => []
  {
    if ps != [] {
      var key, v := ps[0].0, ps[0].1;
      ValuesNamedAppend(EntryPairs(key, v), Pairs(ps[1..]), name);
      if v.List? {
        ValuesNamedItems(key, v.items, name);
      } else {
        assert EntryPairs(key, v)[1..] == [];
      }
      DistinctTail(ps);
      assert forall j :: 0 <= j < |ps[1..]| ==> ps[1..][j] == ps[j + 1];
      ValuesOfUnbracketedName(ps[1..], name);
    }
  }

  // ---- reading the query string back ----

  function IndexOf(s: string, c: char): (i: nat)
    ensures i <= |s|
    ensures i < |s| ==> s[i] == c
    ensures forall k :: 0 <= k < i ==> s[k] != c
  {
    if s == [] then 0 else if s[0] == c then 0 else 1 + IndexOf(s[1..], c)
  }

  /** Splits `name=value&name=value&...` at each `&`, then each segment at its first `=`. */
  function ParseSegments(s: string): Option<seq<Pair>>
    decreases |s|
  {
    if s == [] then Some([])
    else
      var amp := IndexOf(s, '&');
      if amp == |s| then None
      else
        var seg := s[..amp];
        var eq := IndexOf(seg, '=');
        if eq == |seg| then None
        else match ParseSegments(s[amp + 1..])
          case None => None
          case Some(rest) => Some([(seg[..eq], seg[eq + 1..])] + rest)
  }

  function ParseQuery(q: string): Option<seq<Pair>>
  {
    if |q| == 0 || q[0] != '?' then None else ParseSegments(q[1..])
  }

  predicate PlainName(name: string)
  {
    forall k :: 0 <= k < |name| ==> name[k] != '&' && name[k] != '='
  }

  predicate PlainKeys(ps: Params)
  {
    forall i :: 0 <= i < |ps| ==> PlainName(ps[i].0)
  }

  predicate Readable(prs: seq<Pair>)
  {
    forall i :: 0 <= i < |prs| ==> PlainName(prs[i].0) && '&' !in prs[i].1
  }

  lemma {:induction false} ParseJoined(prs: seq<Pair>)
    requires Readable(prs)
    ensures ParseSegments(Joined(prs)) == Some(prs)
  {
    if prs != [] {
      ParseJoined(prs[1..]);
      ParseFirst(prs[0].0, prs[0].1, Joined(prs[1..]));
      assert Joined(prs) == prs[0].0 + "=" + prs[0].1 + "&" + Joined(prs[1..]);
      assert prs == [prs[0]] + prs[1..];
    }
  }

  /** The first segment is split off at its `&`, and divided at its `=`. */
  lemma ParseFirst(name: string, value: string, tail: string)
    requires PlainName(name) && '&' !in value
    ensures ParseSegments(name + "=" + value + "&" + tail) ==
      match ParseSegments(tail)
      case None => None
      case Some(rest) => Some([(name, value)] + rest)
  {
    var seg := name + "=" + value;
    var s := seg + "&" + tail;
    assert s == seg + ("&" + tail);
    IndexOfAfter(seg, "&" + tail, '&');
    assert s[..|seg|] == seg;
    assert seg == name + ("=" + value);
    IndexOfAfter(name, "=" + value, '=');
    assert seg[..|name|] == name && seg[|name| + 1..] == value;
    assert s[|seg| + 1..] == tail;
  }

  lemma IndexOfAfter(a: string, b: string, c: char)
    requires c !in a && |b| > 0 && b[0] == c
    ensures IndexOf(a + b, c) == |a|
  {
    assert forall k :: 0 <= k < |a| ==> (a + b)[k] == a[k];
    assert (a + b)[|a|] == c;
  }

  lemma {:induction false} PairsReadable(ps: Params)
    requires PlainKeys(ps)
    ensures Readable(Pairs(ps))
  {
    if ps != [] {
      assert PlainKeys(ps[1..]) by {
        forall i | 0 <= i < |ps[1..]| ensures PlainName(ps[1..][i].0) {
          assert ps[1..][i] == ps[i + 1];
        }
      }
      PairsReadable(ps[1..]);
      var key := ps[0].0;
      assert PlainName(key + "[]") by {
        forall k | 0 <= k < |key + "[]"| ensures (key + "[]")[k] != '&' && (key + "[]")[k] != '=' {
          if k < |key| { assert (key + "[]")[k] == key[k]; }
        }
      }
      assert !Unreserved('&');
      var ep := EntryPairs(key, ps[0].1);
      assert Readable(ep);
      var all := ep + Pairs(ps[1..]);
      forall i | 0 <= i < |all| ensures PlainName(all[i].0) && '&' !in all[i].1 {
        if i >= |ep| { assert all[i] == Pairs(ps[1..])[i - |ep|]; }
      }
    }
  }

  /**
   * Round trip: when no key contains `&` or `=`, splitting the query string at `&` and each
   * segment at its first `=` recovers exactly the segments, in order.
   */
  lemma QueryRoundTrip(ps: Params)
    requires PlainKeys(ps)
    ensures ParseQuery(QueryString(ps)) == Some(Pairs(ps))
  {
    PairsReadable(ps);
    assert QueryString(ps)[1..] == Joined(Pairs(ps));
    ParseJoined(Pairs(ps));
  }
}
