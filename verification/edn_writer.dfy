/**
 * The EDN writer `stringifyEdn` (edn.js:269-315). It prints numbers as
 * their text, strings between quotes without escaping, lists and vectors
 * alike as `[a,b]`, sets as `#{a,b}` and maps as `{"k" v,"k2" v2}`. It
 * remembers every collection it has entered and fails on meeting one
 * again, which rejects sharing as well as cycles. `Render` and its two
 * companions specify it; the class `Writer` is the recursive printer that
 * appends to one result, proved to agree with them.
 */
module EdnWriter {
  import opened EdnValue

  /** The identities of all collections. */
  function Ids(heap: Heap): (ids: set<nat>)
    ensures forall i: nat :: i in ids <==> i < |heap|
  {
    Below(|heap|)
  }

  /** The naturals below `n`. */
  function Below(n: nat): (ids: set<nat>)
    ensures forall i: nat :: i in ids <==> i < n
  {
    if n == 0 then {} else Below(n - 1) + {n - 1}
  }

  /** Text printed so far, and the collections visited by the end of it. */
  datatype Rendered = Rendered(text: string, seen: set<nat>)

  /** `p` in front of the text of a successful rendering. */
  function Prefix(p: string, r: Result<Rendered>): (q: Result<Rendered>)
    ensures q.Ok? <==> r.Ok?
    ensures r.Err? ==> q == r
    ensures r.Ok? ==> q.value == Rendered(p + r.value.text, r.value.seen)
  {
    match r
    case Ok(x) => Ok(Rendered(p + x.text, x.seen))
    case Err(e) => Err(e)
  }

  /** `s` after the text of a successful rendering. */
  function Suffix(r: Result<Rendered>, s: string): (q: Result<Rendered>)
    ensures q.Ok? <==> r.Ok?
    ensures r.Err? ==> q == r
    ensures r.Ok? ==> q.value == Rendered(r.value.text + s, r.value.seen)
  {
    match r
    case Ok(x) => Ok(Rendered(x.text + s, x.seen))
    case Err(e) => Err(e)
  }

  /** An empty prefix changes nothing. */
  lemma PrefixEmpty(r: Result<Rendered>)
    ensures Prefix([], r) == r
  {
    if r.Ok? {
      assert [] + r.value.text == r.value.text;
    }
  }

  /** Two prefixes in a row are one prefix. */
  lemma PrefixPrefix(p: string, q: string, r: Result<Rendered>)
    ensures Prefix(p, Prefix(q, r)) == Prefix(p + q, r)
  {
    if r.Ok? {
      assert p + (q + r.value.text) == (p + q) + r.value.text;
    }
  }

  /**
   * The text of a map key. The host stores keys as property names, so a
   * scalar key prints as its text; a collection cannot be a key here.
   */
  function KeyText(k: Value): (r: Result<string>)
    ensures r.Err? <==> k.Ref?
  {
    match k
    case Nil => Ok("null")
    case Bool(b) => Ok(if b then "true" else "false")
    case Int(i) => Ok(IntText(i))
    case Float(t) => Ok(t)
    case Str(s) => Ok(s)
    case Ref(_) => Err(UnsupportedKey)
  }

  /**
   * `stringify(obj)` (edn.js:272-312), starting with the collections in
   * `seen` already visited. Nil and booleans fail, and so does an empty
   * collection, because the code reads an element that is not there.
   */
  function Render(heap: Heap, v: Value, seen: set<nat>): (r: Result<Rendered>)
    ensures r.Ok? ==> seen <= r.value.seen <= seen + Ids(heap)
    ensures r.Ok? ==> !v.Nil? && !v.Bool?
    ensures r.Ok? && v.Ref? ==> v.id < |heap| && v.id !in seen && v.id in r.value.seen
    ensures !v.Ref? && r.Ok? ==> r.value.seen == seen
    decreases Ids(heap) - seen, 0, 0
  {
    match v
    case Int(i) => Ok(Rendered(IntText(i), seen))
    case Float(t) => Ok(Rendered(t, seen))
    case Str(s) => Ok(Rendered("\"" + s + "\"", seen))
    case Nil => Err(UnsupportedValue)
    case Bool(_) => Err(UnsupportedValue)
    case Ref(id) =>
      if id >= |heap| then Err(UnsupportedValue)
      else if id in seen then Err(RecursiveStructure)
      else
        var c := heap[id];
        assert id in Ids(heap);
        if c.kind == MapK then
          if |c.entries| == 0 then Err(EmptyCollection)
          else Suffix(Prefix("{", RenderEntries(heap, c.entries, seen + {id})), "}")
        else if |c.items| == 0 then Err(EmptyCollection)
        else if c.kind == SetK then Suffix(Prefix("#{", RenderItems(heap, c.items, seen + {id})), "}")
        else Suffix(Prefix("[", RenderItems(heap, c.items, seen + {id})), "]")
  }

  /** The elements of a list, vector or set, separated by commas (edn.js:284-299). */
  function RenderItems(heap: Heap, items: seq<Value>, seen: set<nat>): (r: Result<Rendered>)
    requires |items| > 0
    ensures r.Ok? ==> seen <= r.value.seen <= seen + Ids(heap)
    decreases Ids(heap) - seen, 1, |items|
  {
    match Render(heap, items[0], seen)
    case Err(e) => Err(e)
    case Ok(first) =>
      if |items| == 1 then Ok(first)
      else Prefix(first.text + ",", RenderItems(heap, items[1..], first.seen))
  }

  /** One map entry as `"key" value` (edn.js:304-305, 308-309). */
  function RenderEntry(heap: Heap, e: Entry, seen: set<nat>): (r: Result<Rendered>)
    ensures r.Ok? ==> seen <= r.value.seen <= seen + Ids(heap)
    decreases Ids(heap) - seen, 0, 2
  {
    match KeyText(e.0)
    case Err(err) => Err(err)
    case Ok(key) => Prefix("\"" + key + "\" ", Render(heap, e.1, seen))
  }

  /** The entries of a map, separated by commas (edn.js:301-310). */
  function RenderEntries(heap: Heap, entries: seq<Entry>, seen: set<nat>): (r: Result<Rendered>)
    requires |entries| > 0
    ensures r.Ok? ==> seen <= r.value.seen <= seen + Ids(heap)
    decreases Ids(heap) - seen, 1, |entries|
  {
    match RenderEntry(heap, entries[0], seen)
    case Err(e) => Err(e)
    case Ok(first) =>
      if |entries| == 1 then Ok(first)
      else Prefix(first.text + ",", RenderEntries(heap, entries[1..], first.seen))
  }

  /** `stringifyEdn(obj)`: the text of `v`, or the error the writer raises. */
  function Stringify(heap: Heap, v: Value): (r: Result<string>)
  {
    match Render(heap, v, {})
    case Ok(x) => Ok(x.text)
    case Err(e) => Err(e)
  }

  /**
   * A printer run agrees with the rendering `r`: on success it appended
   * `r`'s text to `before` and ends with `r`'s visited set; on failure it
   * reports `r`'s error.
   */
  predicate Agrees(r: Result<Rendered>, err: Option<Error>, before: string, after: string, seen: set<nat>)
  {
    match r
    case Ok(x) => err.None? && after == before + x.text && seen == x.seen
    case Err(e) => err == Some(e)
  }

  /** A run that agrees with `r` after `p` agrees with `p` in front of `r`. */
  lemma AgreesPrefix(p: string, r: Result<Rendered>, err: Option<Error>, before: string, after: string, seen: set<nat>)
    requires Agrees(r, err, before + p, after, seen)
    ensures Agrees(Prefix(p, r), err, before, after, seen)
  {
    if r.Ok? {
      assert before + p + r.value.text == before + (p + r.value.text);
    }
  }

  /** The printer's state: the text so far and the visited collections (edn.js:270-271). */
  class Writer {
    const heap: Heap
    var result: string
    var seen: set<nat>

    constructor (heap: Heap)
      ensures this.heap == heap && result == "" && seen == {}
    {
      this.heap := heap;
      result := "";
      seen := {};
    }

    /** `stringify(obj)`: appends the text of `v` to `result`. */
    method Emit(v: Value) returns (err: Option<Error>)
      modifies this
      ensures Agrees(Render(heap, v, old(seen)), err, old(result), result, seen)
      decreases Ids(heap) - seen, 0, 1
    {
      match v {
        case Int(i) =>
          result := result + IntText(i);
          return None;
        case Float(t) =>
          result := result + t;
          return None;
        case Str(s) =>
          result := result + ("\"" + s + "\"");
          return None;
        case Nil =>
          return Some(UnsupportedValue);
        case Bool(_) =>
          return Some(UnsupportedValue);
        case Ref(id) =>
          err := EmitRef(id);
      }
    }

    /** `stringify(obj)` for an object: the seen-set test, then the collection's text. */
    method EmitRef(id: nat) returns (err: Option<Error>)
      modifies this
      ensures Agrees(Render(heap, Ref(id), old(seen)), err, old(result), result, seen)
      decreases Ids(heap) - seen, 0, 0
    {
      if id >= |heap| {
        return Some(UnsupportedValue);
      }
      if id in seen {
        return Some(RecursiveStructure);
      }
      assert id in Ids(heap);
      seen := seen + {id};
      var c := heap[id];
      var open, close := "[", "]";
      if c.kind == MapK {
        open, close := "{", "}";
      } else if c.kind == SetK {
        open, close := "#{", "}";
      }
      ghost var before := result;
      result := result + open;
      if c.kind == MapK {
        err := EmitEntries(c.entries);
      } else {
        err := EmitItems(c.items);
      }
      if err.Some? {
        return;
      }
      ghost var inner := result[|before| + |open|..];
      assert result == before + open + inner;
      result := result + close;
      assert result == before + (open + inner + close);
    }

    /** The loop over the elements of a list, vector or set (edn.js:286-290, 294-298). */
    method EmitItems(items: seq<Value>) returns (err: Option<Error>)
      modifies this
      ensures |items| == 0 ==> err == Some(EmptyCollection)
      ensures |items| > 0 ==> Agrees(RenderItems(heap, items, old(seen)), err, old(result), result, seen)
      decreases Ids(heap) - seen, 1, 0
    {
      if |items| == 0 {
        return Some(EmptyCollection);
      }
      ghost var acc: string := [];
      PrefixEmpty(RenderItems(heap, items, seen));
      assert items[0..] == items;
      var i := 0;
      while i < |items| - 1
        invariant 0 <= i < |items|
        invariant result == old(result) + acc
        invariant old(seen) <= seen
        invariant RenderItems(heap, items, old(seen)) == Prefix(acc, RenderItems(heap, items[i..], seen))
      {
        ghost var s0 := seen;
        ItemsStep(heap, items, i, s0);
        err := Emit(items[i]);
        if err.Some? {
          return;
        }
        ghost var first := Render(heap, items[i], s0).value;
        PrefixPrefix(acc, first.text + ",", RenderItems(heap, items[i + 1..], first.seen));
        result := result + ",";
        acc := acc + (first.text + ",");
        i := i + 1;
      }
      ghost var s0 := seen;
      ItemsLast(heap, items, s0);
      err := Emit(items[i]);
      AgreesPrefix(acc, Render(heap, items[i], s0), err, old(result), result, seen);
    }

    /** One entry: the quoted key, a space, then the value (edn.js:304-305, 308-309). */
    method EmitEntry(e: Entry) returns (err: Option<Error>)
      modifies this
      ensures Agrees(RenderEntry(heap, e, old(seen)), err, old(result), result, seen)
      decreases Ids(heap) - seen, 0, 2
    {
      var key := KeyText(e.0);
      if key.Err? {
        return Some(key.error);
      }
      ghost var before := result;
      var head := "\"" + key.value + "\" ";
      result := result + head;
      err := Emit(e.1);
      if err.None? {
        assert result == before + (head + Render(heap, e.1, old(seen)).value.text);
      }
    }

    /** The loop over the entries of a map (edn.js:302-309). */
    method EmitEntries(entries: seq<Entry>) returns (err: Option<Error>)
      modifies this
      ensures |entries| == 0 ==> err == Some(EmptyCollection)
      ensures |entries| > 0 ==> Agrees(RenderEntries(heap, entries, old(seen)), err, old(result), result, seen)
      decreases Ids(heap) - seen, 1, 0
    {
      if |entries| == 0 {
        return Some(EmptyCollection);
      }
      ghost var acc: string := [];
      PrefixEmpty(RenderEntries(heap, entries, seen));
      assert entries[0..] == entries;
      var i := 0;
      while i < |entries| - 1
        invariant 0 <= i < |entries|
        invariant result == old(result) + acc
        invariant old(seen) <= seen
        invariant RenderEntries(heap, entries, old(seen)) == Prefix(acc, RenderEntries(heap, entries[i..], seen))
      {
        ghost var s0 := seen;
        EntriesStep(heap, entries, i, s0);
        err := EmitEntry(entries[i]);
        if err.Some? {
          return;
        }
        ghost var first := RenderEntry(heap, entries[i], s0).value;
        PrefixPrefix(acc, first.text + ",", RenderEntries(heap, entries[i + 1..], first.seen));
        result := result + ",";
        acc := acc + (first.text + ",");
        i := i + 1;
      }
      ghost var s0 := seen;
      EntriesLast(heap, entries, s0);
      err := EmitEntry(entries[i]);
      AgreesPrefix(acc, RenderEntry(heap, entries[i], s0), err, old(result), result, seen);
    }
  }

  /** One element of the items loop, followed by a comma. */
  lemma ItemsStep(heap: Heap, items: seq<Value>, i: nat, seen: set<nat>)
    requires i + 1 < |items|
    ensures RenderItems(heap, items[i..], seen) ==
              match Render(heap, items[i], seen)
              case Err(e) => Err(e)
              case Ok(first) => Prefix(first.text + ",", RenderItems(heap, items[i + 1..], first.seen))
  {
    assert items[i..][0] == items[i] && items[i..][1..] == items[i + 1..];
  }

  /** The last element of the items loop. */
  lemma ItemsLast(heap: Heap, items: seq<Value>, seen: set<nat>)
    requires |items| > 0
    ensures RenderItems(heap, items[|items| - 1..], seen) == Render(heap, items[|items| - 1], seen)
  {
    assert items[|items| - 1..] == [items[|items| - 1]];
  }

  /** One entry of the entries loop, followed by a comma. */
  lemma EntriesStep(heap: Heap, entries: seq<Entry>, i: nat, seen: set<nat>)
    requires i + 1 < |entries|
    ensures RenderEntries(heap, entries[i..], seen) ==
              match RenderEntry(heap, entries[i], seen)
              case Err(e) => Err(e)
              case Ok(first) => Prefix(first.text + ",", RenderEntries(heap, entries[i + 1..], first.seen))
  {
    assert entries[i..][0] == entries[i] && entries[i..][1..] == entries[i + 1..];
  }

  /** The last entry of the entries loop. */
  lemma EntriesLast(heap: Heap, entries: seq<Entry>, seen: set<nat>)
    requires |entries| > 0
    ensures RenderEntries(heap, entries[|entries| - 1..], seen) == RenderEntry(heap, entries[|entries| - 1], seen)
  {
    assert entries[|entries| - 1..] == [entries[|entries| - 1]];
  }

  /**
   * Every collection among printed elements was unvisited before and is
   * visited after, so no collection occurs twice among them.
   */
  lemma {:induction false} RenderItemsVisits(heap: Heap, items: seq<Value>, seen: set<nat>)
    requires |items| > 0 && RenderItems(heap, items, seen).Ok?
    ensures forall k :: 0 <= k < |items| && items[k].Ref? ==>
              items[k].id !in seen && items[k].id in RenderItems(heap, items, seen).value.seen
    ensures forall i, j :: 0 <= i < j < |items| && items[i].Ref? ==> items[j] != items[i]
    decreases |items|
  {
    var first := Render(heap, items[0], seen).value;
    if |items| > 1 {
      var rest := items[1..];
      RenderItemsVisits(heap, rest, first.seen);
      assert RenderItems(heap, items, seen).value.seen == RenderItems(heap, rest, first.seen).value.seen;
      forall k | 1 <= k < |items|
        ensures items[k] == rest[k - 1]
      {
      }
    }
  }

  /** The same for the values of printed map entries. */
  lemma {:induction false} RenderEntriesVisits(heap: Heap, entries: seq<Entry>, seen: set<nat>)
    requires |entries| > 0 && RenderEntries(heap, entries, seen).Ok?
    ensures forall k :: 0 <= k < |entries| && entries[k].1.Ref? ==>
              entries[k].1.id !in seen && entries[k].1.id in RenderEntries(heap, entries, seen).value.seen
    ensures forall i, j :: 0 <= i < j < |entries| && entries[i].1.Ref? ==> entries[j].1 != entries[i].1
    decreases |entries|
  {
    var first := RenderEntry(heap, entries[0], seen).value;
    assert first.seen == Render(heap, entries[0].1, seen).value.seen;
    if |entries| > 1 {
      var rest := entries[1..];
      RenderEntriesVisits(heap, rest, first.seen);
      assert RenderEntries(heap, entries, seen).value.seen == RenderEntries(heap, rest, first.seen).value.seen;
      forall k | 1 <= k < |entries|
        ensures entries[k] == rest[k - 1]
      {
      }
    }
  }

  /** Collection `a` holds collection `b` as an element or as a map value. */
  ghost predicate Holds(heap: Heap, a: nat, b: nat) {
    a < |heap| &&
    if heap[a].kind == MapK then exists k :: 0 <= k < |heap[a].entries| && heap[a].entries[k].1 == Ref(b)
    else Ref(b) in heap[a].items
  }

  /** A chain of collections, each holding the next. */
  ghost predicate IsChain(heap: Heap, p: seq<nat>) {
    |p| > 0 && forall k :: 0 <= k < |p| - 1 ==> Holds(heap, p[k], p[k + 1])
  }

  /** Every element of printed elements was printed, from a larger visited set. */
  lemma {:induction false} ItemRendered(heap: Heap, items: seq<Value>, k: nat, seen: set<nat>)
    requires k < |items| && RenderItems(heap, items, seen).Ok?
    ensures exists s :: seen <= s && Render(heap, items[k], s).Ok?
    decreases k
  {
    var first := Render(heap, items[0], seen).value;
    if k > 0 {
      ItemRendered(heap, items[1..], k - 1, first.seen);
      assert items[1..][k - 1] == items[k];
    }
  }

  /** Every value of printed entries was printed, from a larger visited set. */
  lemma {:induction false} EntryRendered(heap: Heap, entries: seq<Entry>, k: nat, seen: set<nat>)
    requires k < |entries| && RenderEntries(heap, entries, seen).Ok?
    ensures exists s :: seen <= s && Render(heap, entries[k].1, s).Ok?
    decreases k
  {
    var first := RenderEntry(heap, entries[0], seen).value;
    assert Render(heap, entries[0].1, seen).Ok?;
    if k > 0 {
      EntryRendered(heap, entries[1..], k - 1, first.seen);
      assert entries[1..][k - 1] == entries[k];
    }
  }

  /** A printed collection printed what it holds after marking itself visited. */
  lemma HeldRendered(heap: Heap, a: nat, b: nat, seen: set<nat>)
    requires Holds(heap, a, b) && Render(heap, Ref(a), seen).Ok?
    ensures exists s :: seen + {a} <= s && Render(heap, Ref(b), s).Ok?
  {
    var c := heap[a];
    if c.kind == MapK {
      var k :| 0 <= k < |c.entries| && c.entries[k].1 == Ref(b);
      EntryRendered(heap, c.entries, k, seen + {a});
    } else {
      var k :| 0 <= k < |c.items| && c.items[k] == Ref(b);
      ItemRendered(heap, c.items, k, seen + {a});
    }
  }

  /**
   * Along a chain from a printed collection, every collection was unvisited
   * before and no collection occurs twice.
   */
  lemma {:induction false} PrintedChainIsSimple(heap: Heap, p: seq<nat>, seen: set<nat>)
    requires IsChain(heap, p) && Render(heap, Ref(p[0]), seen).Ok?
    ensures forall k :: 0 <= k < |p| ==> p[k] !in seen
    ensures forall i, j :: 0 <= i < j < |p| ==> p[i] != p[j]
    decreases |p|
  {
    if |p| > 1 {
      HeldRendered(heap, p[0], p[1], seen);
      var s :| seen + {p[0]} <= s && Render(heap, Ref(p[1]), s).Ok?;
      var q := p[1..];
      forall k | 0 <= k < |q| - 1
        ensures Holds(heap, q[k], q[k + 1])
      {
        assert q[k] == p[k + 1] && q[k + 1] == p[k + 2];
      }
      PrintedChainIsSimple(heap, q, s);
      forall k | 1 <= k < |p|
        ensures p[k] == q[k - 1]
      {
      }
    }
  }

  /**
   * A collection that reaches itself through the collections it holds
   * cannot be printed, however long the cycle (edn.js:280-281).
   */
  lemma CycleIsRejected(heap: Heap, p: seq<nat>, seen: set<nat>)
    requires IsChain(heap, p) && |p| > 1 && p[|p| - 1] == p[0]
    ensures Render(heap, Ref(p[0]), seen).Err?
  {
    if Render(heap, Ref(p[0]), seen).Ok? {
      PrintedChainIsSimple(heap, p, seen);
    }
  }

  /**
   * A collection that holds the same collection twice cannot be printed
   * either: the writer remembers every collection it entered, not only the
   * ones it is inside (edn.js:280-282).
   */
  lemma SharingIsRejected(heap: Heap, id: nat, i: nat, j: nat, seen: set<nat>)
    requires id < |heap| && heap[id].kind != MapK
    requires i < j < |heap[id].items| && heap[id].items[i] == heap[id].items[j] && heap[id].items[i].Ref?
    ensures Render(heap, Ref(id), seen).Err?
  {
    if Render(heap, Ref(id), seen).Ok? {
      RenderItemsVisits(heap, heap[id].items, seen + {id});
    }
  }

  /** `stringifyEdn(obj)` as the code runs it. */
  method StringifyEdn(heap: Heap, v: Value) returns (r: Result<string>)
    ensures r == Stringify(heap, v)
  {
    var w := new Writer(heap);
    var err := w.Emit(v);
    if err.None? {
      ghost var text := Render(heap, v, {}).value.text;
      assert w.result == "" + text && "" + text == text;
    }
    if err.Some? {
      return Err(err.value);
    }
    return Ok(w.result);
  }
}
