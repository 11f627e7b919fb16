/**
 * The tree builder of the EDN reader, as functions over its state: the
 * collections built so far, the stack of open collections (the root list,
 * collection 0, at the bottom), the one pending tag and the one pending
 * map key shared by every open map (edn.js:41-98). `Parse` drives it with
 * the tokens of `EdnLexer.Lex` (edn.js:101-266); the imperative reader in
 * module EdnReader is proved to compute the same thing.
 */
module EdnBuilder {
  import opened EdnValue
  import opened EdnLexer

  datatype State = State(heap: Heap, stack: seq<nat>, tag: Option<string>, objKey: Option<Value>)

  /**
   * Collection 0 is the root list and carries no tag, and every open
   * collection exists. Collections never change kind once made.
   */
  predicate Valid(st: State) {
    && |st.heap| > 0
    && st.heap[0].kind == ListK
    && st.heap[0].tag.None?
    && forall k :: 0 <= k < |st.stack| ==> st.stack[k] < |st.heap|
  }

  /** A fresh, empty collection of the given kind. */
  function Empty(kind: Kind): (c: Coll)
    ensures c.kind == kind && c.items == [] && c.entries == [] && c.tag.None?
  {
    Coll(kind, [], [], None)
  }

  /** The state before the first token: only the root list is open. */
  function Init(): (st: State)
    ensures Valid(st) && st.stack == [0] && st.heap[0].items == []
    ensures st.tag.None? && st.objKey.None?
  {
    State([Empty(ListK)], [0], None, None)
  }

  function Last<T>(s: seq<T>): T
    requires |s| > 0
  {
    s[|s| - 1]
  }

  function DropLast<T>(s: seq<T>): (r: seq<T>)
    ensures |s| > 0 ==> r == s[..|s| - 1]
    ensures |s| == 0 ==> r == []
  {
    if |s| == 0 then [] else s[..|s| - 1]
  }

  // ---------------------------------------------------------------------
  // Set insertion and map assignment
  // ---------------------------------------------------------------------

  /** No value occurs twice. */
  predicate NoDuplicates(s: seq<Value>) {
    forall i, j :: 0 <= i < j < |s| ==> s[i] != s[j]
  }

  /**
   * Adding to a set (edn.js:66): a value already present, by value for
   * scalars and by identity for collections, leaves the set as it is;
   * anything else goes last.
   */
  function Insert(items: seq<Value>, v: Value): (r: seq<Value>)
    ensures forall x :: x in r <==> x in items || x == v
    ensures v in items ==> r == items
    ensures v !in items ==> r == items + [v]
    ensures NoDuplicates(items) ==> NoDuplicates(r)
  {
    if v in items then items else items + [v]
  }

  /** The value stored under `k`, if any. */
  function Lookup(entries: seq<Entry>, k: Value): Option<Value>
  {
    if |entries| == 0 then None
    else if entries[0].0 == k then Some(entries[0].1)
    else Lookup(entries[1..], k)
  }

  /** No key occurs twice. */
  predicate KeysUnique(entries: seq<Entry>) {
    forall i, j :: 0 <= i < j < |entries| ==> entries[i].0 != entries[j].0
  }

  /**
   * `top[objKey] = el` (edn.js:70): an existing key keeps its place and
   * takes the new value, a new key goes last.
   */
  function Assign(entries: seq<Entry>, k: Value, v: Value): (r: seq<Entry>)
    ensures Lookup(r, k) == Some(v)
    ensures forall k' :: k' != k ==> Lookup(r, k') == Lookup(entries, k')
    ensures Lookup(entries, k).None? ==> r == entries + [(k, v)]
    ensures Lookup(entries, k).Some? ==> |r| == |entries|
  {
    if |entries| == 0 then [(k, v)]
    else if entries[0].0 == k then [(k, v)] + entries[1..]
    else [entries[0]] + Assign(entries[1..], k, v)
  }

  /** Assignment keeps every key unique (an object has each property once). */
  lemma {:induction false} AssignKeepsKeysUnique(entries: seq<Entry>, k: Value, v: Value)
    requires KeysUnique(entries)
    ensures KeysUnique(Assign(entries, k, v))
  {
    if |entries| > 0 && entries[0].0 != k {
      var rest := Assign(entries[1..], k, v);
      AssignKeepsKeysUnique(entries[1..], k, v);
      forall i | 0 <= i < |rest| ensures rest[i].0 != entries[0].0 {
        LookupFindsPresent(rest, i);
        if rest[i].0 != k {
          LookupSomeHasIndex(entries[1..], rest[i].0);
        }
      }
    }
  }

  /** A key stored at some index is found by `Lookup`. */
  lemma {:induction false} LookupFindsPresent(entries: seq<Entry>, i: nat)
    requires i < |entries|
    ensures Lookup(entries, entries[i].0).Some?
  {
    if i > 0 && entries[0].0 != entries[i].0 {
      LookupFindsPresent(entries[1..], i - 1);
    }
  }

  /** A key `Lookup` finds is stored at some index. */
  lemma {:induction false} LookupSomeHasIndex(entries: seq<Entry>, k: Value)
    requires Lookup(entries, k).Some?
    ensures exists i :: 0 <= i < |entries| && entries[i].0 == k
  {
    if entries[0].0 != k {
      LookupSomeHasIndex(entries[1..], k);
      var i :| 0 <= i < |entries[1..]| && entries[1..][i].0 == k;
      assert entries[i + 1].0 == k;
    }
  }

  // ---------------------------------------------------------------------
  // pushTree and popStack
  // ---------------------------------------------------------------------

  /**
   * Stores `el` in the innermost open collection (edn.js:62-72): appended
   * to a list or vector, inserted into a set, and in a map either stashed
   * as the pending key or stored under it. With the root popped there is
   * no collection: the value is stashed as a key, and a second one fails.
   */
  function Route(st: State, el: Value): (r: Result<State>)
    requires Valid(st)
    ensures r.Ok? ==> Valid(r.value) && |r.value.heap| == |st.heap| && r.value.stack == st.stack
    ensures r.Ok? ==> r.value.tag == st.tag
    ensures r.Ok? ==> forall i :: 0 <= i < |st.heap| ==> r.value.heap[i].kind == st.heap[i].kind && r.value.heap[i].tag == st.heap[i].tag
    ensures r.Err? <==> |st.stack| == 0 && st.objKey.Some?
  {
    if |st.stack| == 0 then
      if st.objKey.None? then Ok(st.(objKey := Some(el))) else Err(NoOpenCollection)
    else
      var top := Last(st.stack);
      var c := st.heap[top];
      match c.kind
      case ListK => Ok(st.(heap := st.heap[top := c.(items := c.items + [el])]))
      case VectorK => Ok(st.(heap := st.heap[top := c.(items := c.items + [el])]))
      case SetK => Ok(st.(heap := st.heap[top := c.(items := Insert(c.items, el))]))
      case MapK =>
        if st.objKey.None? then Ok(st.(objKey := Some(el)))
        else Ok(st.(heap := st.heap[top := c.(entries := Assign(c.entries, st.objKey.value, el))], objKey := None))
  }

  /**
   * `pushTree` (edn.js:48-73). A pending tag is consumed: recorded on a
   * collection, silently dropped by other values, and fatal on `nil`
   * (recording a property on null). A registered transformer replaces any
   * value that is not a collection; a collection is transformed when it
   * closes (`PopStack`). The value is then routed to the innermost
   * collection.
   */
  function PushTree(st: State, v: Value, tags: map<string, Transformer>): (r: Result<State>)
    requires Valid(st)
    requires v.Ref? ==> 0 < v.id < |st.heap|
    ensures r.Ok? ==> Valid(r.value) && r.value.tag.None?
    ensures r.Ok? ==> |r.value.heap| == |st.heap| && r.value.stack == st.stack
    ensures r.Err? <==> (st.tag.Some? && v.Nil?) || (|st.stack| == 0 && st.objKey.Some?)
  {
    if st.tag.Some? && v.Nil? then Err(TaggedNil)
    else
      var heap := if st.tag.Some? && v.Ref? then st.heap[v.id := st.heap[v.id].(tag := st.tag)] else st.heap;
      var el := if st.tag.Some? && st.tag.value in tags && !v.Ref? then tags[st.tag.value](heap, v) else v;
      Route(State(heap, st.stack, None, st.objKey), el)
  }

  /**
   * `popStack` (edn.js:75-98): fails while a tag is pending. A collection
   * whose tag has a transformer is transformed and its slot in the parent
   * is overwritten: the last element of a list or vector, the value of the
   * map's most recently added entry. A set parent fails (the code calls a
   * method sets do not have), and so does a map parent without entries.
   * Any other collection is simply popped.
   */
  function PopStack(st: State, tags: map<string, Transformer>): (r: Result<State>)
    requires Valid(st) && |st.stack| > 0
    ensures r.Ok? ==> Valid(r.value) && r.value.stack == DropLast(st.stack)
    ensures r.Ok? ==> |r.value.heap| == |st.heap| && r.value.tag == st.tag && r.value.objKey == st.objKey
    ensures r.Err? ==> r.error in {TagWithoutValue, NoOpenCollection, SetSlotReplace, MapSlotMissing}
  {
    if st.tag.Some? then Err(TagWithoutValue)
    else
      var top := Last(st.stack);
      var c := st.heap[top];
      var rest := DropLast(st.stack);
      if c.tag.Some? && c.tag.value in tags then
        var t := tags[c.tag.value](st.heap, Ref(top));
        if |rest| == 0 then Err(NoOpenCollection)
        else
          var p := Last(rest);
          var pc := st.heap[p];
          match pc.kind
          case ListK => Ok(st.(heap := st.heap[p := pc.(items := DropLast(pc.items) + [t])], stack := rest))
          case VectorK => Ok(st.(heap := st.heap[p := pc.(items := DropLast(pc.items) + [t])], stack := rest))
          case MapK =>
            if |pc.entries| == 0 then Err(MapSlotMissing)
            else
              var last := Last(pc.entries);
              Ok(st.(heap := st.heap[p := pc.(entries := DropLast(pc.entries) + [(last.0, t)])], stack := rest))
          case SetK => Err(SetSlotReplace)
      else Ok(st.(stack := rest))
  }

  /** The kind a closer needs on top of the stack. */
  predicate Closes(closer: char, kind: Kind) {
    if closer == ')' then kind == ListK
    else if closer == ']' then kind == VectorK
    else kind == SetK || kind == MapK
  }

  /** The error a closer raises when the innermost collection does not match it. */
  function Mismatch(closer: char): Error {
    if closer == ')' then UnmatchedParen else if closer == ']' then UnmatchedBracket else UnmatchedBrace
  }

  /**
   * A closer (edn.js:122-133, 142-150, 159-175): it must match the
   * innermost open collection, and no tag may be pending.
   */
  function CloseTop(st: State, closer: char, tags: map<string, Transformer>): (r: Result<State>)
    requires Valid(st)
    ensures r.Ok? ==> Valid(r.value)
  {
    if |st.stack| == 0 then Err(NoOpenCollection)
    else if !Closes(closer, st.heap[Last(st.stack)].kind) then Err(Mismatch(closer))
    else if st.tag.Some? then Err(TagWithoutValue)
    else PopStack(st, tags)
  }

  /**
   * One step of the main loop (edn.js:104-262). An opener makes a fresh
   * collection, pushes it into the current one and opens it. A number
   * with a tag still pending after `pushTree` raises, which cannot happen
   * (`RunNeverRaisesTaggedNumber`). A second tag before a value raises.
   */
  function Feed(st: State, tok: Token, tags: map<string, Transformer>): (r: Result<State>)
    requires Valid(st) && Lexical(tok)
    ensures r.Ok? ==> Valid(r.value)
  {
    match tok
    case Open(kind) =>
      var id := |st.heap|;
      var st1 := st.(heap := st.heap + [Empty(kind)]);
      (match PushTree(st1, Ref(id), tags)
       case Err(e) => Err(e)
       case Ok(st2) => Ok(st2.(stack := st2.stack + [id])))
    case Close(closer) => CloseTop(st, closer, tags)
    case Scalar(v) =>
      (match PushTree(st, v, tags)
       case Err(e) => Err(e)
       case Ok(st1) => if (v.Int? || v.Float?) && st1.tag.Some? then Err(TaggedNumber) else Ok(st1))
    case Comment => Ok(st)
    case TagMark(name) => if st.tag.Some? then Err(TwoTagsInARow) else Ok(st.(tag := Some(name)))
  }

  /** Reads the rest of the text token by token. */
  function Run(st: State, s: string, cfg: Config): (r: Result<State>)
    requires Valid(st)
    ensures r.Ok? ==> Valid(r.value)
    decreases |s|
  {
    if |s| == 0 then Ok(st)
    else
      match Lex(s, cfg.unescape)
      case Err(e) => Err(e)
      case Ok(lx) =>
        match Feed(st, lx.token, cfg.tags)
        case Err(e) => Err(e)
        case Ok(st1) => Run(st1, s[lx.len..], cfg)
  }

  /**
   * `parseEdn` (edn.js:36-267): leading separators are dropped, then the
   * whole text is read. The result is every collection built, collection
   * 0 being the root list of top-level forms. Collections still open at
   * the end are returned as they are.
   */
  function Parse(text: string, cfg: Config): (r: Result<Heap>)
    ensures r.Ok? ==> |r.value| > 0 && r.value[0].kind == ListK && r.value[0].tag.None?
  {
    match Run(Init(), text[SepRun(text)..], cfg)
    case Ok(st) => Ok(st.heap)
    case Err(e) => Err(e)
  }

  // ---------------------------------------------------------------------
  // Properties of the builder
  // ---------------------------------------------------------------------

  /**
   * The "no tags for Float/Integer" checks (edn.js:223-234) never fire:
   * `pushTree` has already cleared the tag, so a whole read never raises
   * `TaggedNumber`.
   */
  lemma {:induction false} RunNeverRaisesTaggedNumber(st: State, s: string, cfg: Config)
    requires Valid(st)
    ensures Run(st, s, cfg) != Err(TaggedNumber)
    decreases |s|
  {
    if |s| > 0 {
      var lx := Lex(s, cfg.unescape);
      if lx.Ok? {
        var f := Feed(st, lx.value.token, cfg.tags);
        if f.Ok? {
          RunNeverRaisesTaggedNumber(f.value, s[lx.value.len..], cfg);
        }
      }
    }
  }

  /** Parsing never raises `TaggedNumber`. */
  lemma ParseNeverRaisesTaggedNumber(text: string, cfg: Config)
    ensures Parse(text, cfg) != Err(TaggedNumber)
  {
    RunNeverRaisesTaggedNumber(Init(), text[SepRun(text)..], cfg);
  }

  /** A tagged number is accepted: the tag is consumed and the number stored. */
  lemma TaggedNumberIsAccepted(st: State, n: int, tags: map<string, Transformer>)
    requires Valid(st) && st.tag.Some? && st.tag.value !in tags
    requires |st.stack| > 0 && st.heap[Last(st.stack)].kind == ListK
    ensures Feed(st, Scalar(Int(n)), tags).Ok?
    ensures var top := Last(st.stack);
            Feed(st, Scalar(Int(n)), tags).value ==
              st.(heap := st.heap[top := st.heap[top].(items := st.heap[top].items + [Int(n)])], tag := None)
  {
  }

  /**
   * A closer succeeds only if it matches the innermost open collection
   * and no tag is pending; when it matches and the collection has no
   * registered transformer, it just closes the collection.
   */
  lemma CloserMatchesInnermost(st: State, closer: char, tags: map<string, Transformer>)
    requires Valid(st)
    ensures CloseTop(st, closer, tags).Ok? ==>
              |st.stack| > 0 && Closes(closer, st.heap[Last(st.stack)].kind) && st.tag.None?
    ensures |st.stack| > 0 && !Closes(closer, st.heap[Last(st.stack)].kind) ==>
              CloseTop(st, closer, tags) == Err(Mismatch(closer))
    ensures |st.stack| > 0 && Closes(closer, st.heap[Last(st.stack)].kind) && st.tag.Some? ==>
              CloseTop(st, closer, tags) == Err(TagWithoutValue)
    ensures |st.stack| > 0 && Closes(closer, st.heap[Last(st.stack)].kind) && st.tag.None? &&
            (st.heap[Last(st.stack)].tag.None? || st.heap[Last(st.stack)].tag.value !in tags) ==>
              CloseTop(st, closer, tags) == Ok(st.(stack := DropLast(st.stack)))
  {
  }

  /**
   * The root is a list, so a stray `)` at top level closes it instead of
   * failing. With nothing open, one more value is kept as a pending key
   * and lost, and a second one fails.
   */
  lemma StrayParenPopsRoot(st: State, v: Value, w: Value, tags: map<string, Transformer>)
    requires Valid(st) && st.stack == [0] && st.tag.None? && st.objKey.None?
    requires st.heap[0].tag.None?
    requires !v.Ref? && !w.Ref?
    ensures CloseTop(st, ')', tags) == Ok(st.(stack := []))
    ensures PushTree(st.(stack := []), v, tags) == Ok(st.(stack := [], objKey := Some(v)))
    ensures PushTree(st.(stack := [], objKey := Some(v)), w, tags) == Err(NoOpenCollection)
  {
  }

  /**
   * Inside a map, values pair up: the first is kept as the pending key,
   * the second is stored under it and clears the slot.
   */
  lemma MapPairsValues(st: State, k: Value, v: Value, tags: map<string, Transformer>)
    requires Valid(st) && st.tag.None? && st.objKey.None?
    requires |st.stack| > 0 && st.heap[Last(st.stack)].kind == MapK
    requires !k.Ref? && !v.Ref?
    ensures PushTree(st, k, tags) == Ok(st.(objKey := Some(k)))
    ensures var top := Last(st.stack);
            var c := st.heap[top];
            && PushTree(st.(objKey := Some(k)), v, tags) ==
                 Ok(st.(heap := st.heap[top := c.(entries := Assign(c.entries, k, v))]))
            && Lookup(Assign(c.entries, k, v), k) == Some(v)
  {
  }

  /** A map opened while its parent map waits for a value becomes that value. */
  lemma MapValueIsAMap(st: State, tags: map<string, Transformer>)
    requires Valid(st) && st.tag.None? && st.objKey.Some?
    requires |st.stack| > 0 && st.heap[Last(st.stack)].kind == MapK
    ensures Feed(st, Open(MapK), tags).Ok?
    ensures var st1 := Feed(st, Open(MapK), tags).value;
            st1.objKey.None? && Lookup(st1.heap[Last(st.stack)].entries, st.objKey.value) == Some(Ref(|st.heap|))
  {
  }

  /**
   * The pending key is shared by every open map: a map opened as a key is
   * itself the pending key when the map's first value arrives, so that
   * value is stored inside the new map under the new map itself, and the
   * parent is left without its key.
   */
  lemma PendingKeyIsShared(st: State, v: Value, tags: map<string, Transformer>)
    requires Valid(st) && st.tag.None? && st.objKey.None?
    requires |st.stack| > 0 && st.heap[Last(st.stack)].kind == MapK
    requires !v.Ref?
    ensures Feed(st, Open(MapK), tags).Ok?
    ensures var id := |st.heap|;
            var st1 := Feed(st, Open(MapK), tags).value;
            && st1.objKey == Some(Ref(id)) && st1.stack == st.stack + [id]
            && st1.heap[Last(st.stack)] == st.heap[Last(st.stack)]
            && Feed(st1, Scalar(v), tags).Ok?
            && Feed(st1, Scalar(v), tags).value.heap[id].entries == [(Ref(id), v)]
            && Feed(st1, Scalar(v), tags).value.objKey.None?
  {
    var id := |st.heap|;
    var st1 := Feed(st, Open(MapK), tags).value;
    assert Last(st1.stack) == id;
  }

  /** Inside a set, a value already present is not added again. */
  lemma SetDeduplicates(st: State, v: Value, tags: map<string, Transformer>)
    requires Valid(st) && st.tag.None?
    requires |st.stack| > 0 && st.heap[Last(st.stack)].kind == SetK
    requires !v.Ref?
    ensures var top := Last(st.stack);
            && PushTree(st, v, tags).Ok?
            && PushTree(st, v, tags).value.heap[top].items == Insert(st.heap[top].items, v)
            && (v in st.heap[top].items ==> PushTree(st, v, tags).value.heap == st.heap)
  {
    var top := Last(st.stack);
    if v in st.heap[top].items {
      assert st.heap[top := st.heap[top].(items := st.heap[top].items)] == st.heap;
    }
  }

  /**
   * How a pending tag meets the next value (edn.js:49-61): a collection
   * records it and is left as it is; any other value except `nil` is
   * replaced by the transformer's result if the tag has one, and passes
   * unchanged if not, without an error.
   */
  lemma TagIsConsumed(st: State, v: Value, tags: map<string, Transformer>)
    requires Valid(st) && st.tag.Some? && !v.Nil?
    requires v.Ref? ==> 0 < v.id < |st.heap|
    ensures !v.Ref? && st.tag.value !in tags ==> PushTree(st, v, tags) == Route(st.(tag := None), v)
    ensures !v.Ref? && st.tag.value in tags ==>
              PushTree(st, v, tags) == Route(st.(tag := None), tags[st.tag.value](st.heap, v))
    ensures v.Ref? ==>
              PushTree(st, v, tags) ==
                Route(st.(heap := st.heap[v.id := st.heap[v.id].(tag := st.tag)], tag := None), v)
  {
  }

  /**
   * A tagged collection with a transformer is replaced when it closes: in
   * a list parent, the transformer's result takes the place the
   * collection was given when it opened.
   */
  lemma TaggedCollectionIsTransformedAtClose(st: State, tags: map<string, Transformer>)
    requires Valid(st) && st.tag.Some? && st.tag.value in tags
    requires |st.stack| > 0 && st.heap[Last(st.stack)].kind == ListK
    ensures Feed(st, Open(VectorK), tags).Ok?
    ensures var st1 := Feed(st, Open(VectorK), tags).value;
            var id := |st.heap|;
            var p := Last(st.stack);
            && st1.heap[id].tag == st.tag
            && CloseTop(st1, ']', tags).Ok?
            && CloseTop(st1, ']', tags).value.stack == st.stack
            && CloseTop(st1, ']', tags).value.heap[p].items
                 == st.heap[p].items + [tags[st.tag.value](st1.heap, Ref(id))]
  {
    var id := |st.heap|;
    var p := Last(st.stack);
    var st1 := Feed(st, Open(VectorK), tags).value;
    assert st1.heap[p].items == st.heap[p].items + [Ref(id)];
    assert st1.stack == st.stack + [id];
    assert DropLast(st1.stack) == st.stack;
    assert DropLast(st1.heap[p].items) == st.heap[p].items;
  }

  /**
   * Where `pushTree` puts a value (edn.js:62-72), collection by
   * collection: a list or vector gains it last, a set inserts it, a map
   * stashes it as the pending key or stores it under the pending key and
   * clears the key. No other collection changes.
   */
  lemma RouteDestination(st: State, el: Value)
    requires Valid(st) && |st.stack| > 0
    ensures Route(st, el).Ok?
    ensures var top := Last(st.stack);
            var c := st.heap[top];
            var r := Route(st, el).value;
            && (forall i :: 0 <= i < |st.heap| && i != top ==> r.heap[i] == st.heap[i])
            && r.heap[top].kind == c.kind && r.heap[top].tag == c.tag
            && (c.kind == ListK || c.kind == VectorK ==>
                  r.heap[top].items == c.items + [el] && r.heap[top].entries == c.entries && r.objKey == st.objKey)
            && (c.kind == SetK ==>
                  r.heap[top].items == Insert(c.items, el) && r.heap[top].entries == c.entries && r.objKey == st.objKey)
            && (c.kind == MapK && st.objKey.None? ==> r.heap == st.heap && r.objKey == Some(el))
            && (c.kind == MapK && st.objKey.Some? ==>
                  && r.heap[top].items == c.items && r.objKey.None?
                  && Lookup(r.heap[top].entries, st.objKey.value) == Some(el)
                  && forall k :: k != st.objKey.value ==> Lookup(r.heap[top].entries, k) == Lookup(c.entries, k))
  {
  }

  /**
   * What closing a collection does (edn.js:75-98), case by case: with a
   * tag pending it fails; without a transformer for its tag it is popped
   * and nothing else changes; with one, its slot in the parent takes the
   * transformer's result (the last item of a list or vector, the value of
   * the map's last entry, its key kept) and no other collection changes,
   * while a set parent, a map parent without entries, or no parent fails.
   */
  lemma PopStackOutcome(st: State, tags: map<string, Transformer>)
    requires Valid(st) && |st.stack| > 0
    ensures st.tag.Some? ==> PopStack(st, tags) == Err(TagWithoutValue)
    ensures var top := Last(st.stack);
            var c := st.heap[top];
            st.tag.None? && (c.tag.None? || c.tag.value !in tags) ==>
              PopStack(st, tags) == Ok(st.(stack := DropLast(st.stack)))
    ensures var top := Last(st.stack);
            var c := st.heap[top];
            var rest := DropLast(st.stack);
            st.tag.None? && c.tag.Some? && c.tag.value in tags ==>
              var t := tags[c.tag.value](st.heap, Ref(top));
              && (|rest| == 0 ==> PopStack(st, tags) == Err(NoOpenCollection))
              && (|rest| > 0 ==>
                    var p := Last(rest);
                    var pc := st.heap[p];
                    var r := PopStack(st, tags);
                    && (pc.kind == SetK ==> r == Err(SetSlotReplace))
                    && (pc.kind == MapK && |pc.entries| == 0 ==> r == Err(MapSlotMissing))
                    && (pc.kind != SetK && !(pc.kind == MapK && |pc.entries| == 0) ==>
                          && r.Ok? && r.value.stack == rest && r.value.tag.None? && r.value.objKey == st.objKey
                          && (forall i :: 0 <= i < |st.heap| && i != p ==> r.value.heap[i] == st.heap[i])
                          && r.value.heap[p].kind == pc.kind && r.value.heap[p].tag == pc.tag)
                    && (pc.kind == ListK || pc.kind == VectorK ==>
                          var items := r.value.heap[p].items;
                          && r.value.heap[p].entries == pc.entries
                          && |items| == (if |pc.items| == 0 then 1 else |pc.items|)
                          && items[|items| - 1] == t
                          && items[..|items| - 1] == DropLast(pc.items))
                    && (pc.kind == MapK && |pc.entries| > 0 ==>
                          var es := r.value.heap[p].entries;
                          && r.value.heap[p].items == pc.items
                          && |es| == |pc.entries|
                          && es[..|es| - 1] == pc.entries[..|es| - 1]
                          && es[|es| - 1] == (pc.entries[|es| - 1].0, t)))
  {
  }

  /** One step of `Run`: a token recognized and fed. */
  lemma RunStep(st: State, s: string, cfg: Config, tok: Token, n: nat, st1: State)
    requires Valid(st) && |s| > 0
    requires Lex(s, cfg.unescape) == Ok(Lexeme(tok, n)) && Feed(st, tok, cfg.tags) == Ok(st1)
    ensures Run(st, s, cfg) == Run(st1, s[n..], cfg)
  {
  }

  /**
   * A line comment (edn.js:249-253) changes nothing: reading resumes after
   * it. `CommentNeedsNewline` says when a comment is read and how far it
   * runs: through its line feed and the separators after that.
   */
  lemma CommentIsSkipped(st: State, s: string, cfg: Config, n: nat)
    requires Valid(st) && |s| > 0 && Lex(s, cfg.unescape) == Ok(Lexeme(Comment, n))
    ensures Run(st, s, cfg) == Run(st, s[n..], cfg)
  {
    RunStep(st, s, cfg, Comment, n, st);
  }

  /**
   * A tag mark `#name` (edn.js:254-261) while another tag is pending fails
   * with `TwoTagsInARow`; otherwise the name becomes the pending tag and
   * reading goes on after the mark. `TagsAreTagMarks` says that `#` and a
   * tag name are read as that mark.
   */
  lemma TagMarkStep(st: State, s: string, cfg: Config, name: string, n: nat)
    requires Valid(st) && |s| > 0 && Lex(s, cfg.unescape) == Ok(Lexeme(TagMark(name), n))
    ensures Run(st, s, cfg) ==
              if st.tag.Some? then Err(TwoTagsInARow)
              else Run(st.(tag := Some(name)), s[n..], cfg)
  {
    if st.tag.None? {
      RunStep(st, s, cfg, TagMark(name), n, st.(tag := Some(name)));
    }
  }

  /** Separators before the first form are ignored. */
  lemma LeadingSeparatorsAreIgnored(ws: string, text: string, cfg: Config)
    requires forall k :: 0 <= k < |ws| ==> IsSep(ws[k])
    ensures Parse(ws + text, cfg) == Parse(text, cfg)
  {
    SepRunPrefix(ws, text);
    assert (ws + text)[SepRun(ws + text)..] == text[SepRun(text)..];
  }

  /** The reader returns what it has built when the text ends, whatever is still open. */
  lemma UnclosedCollectionsAreReturned(cfg: Config)
    ensures Parse("(", cfg) == Ok([Coll(ListK, [Ref(1)], [], None), Empty(ListK)])
  {
    assert SepRun("(") == 0;
    assert "("[0..] == "(";
    assert Lex("(", cfg.unescape) == Ok(Lexeme(Open(ListK), 1));
    var st1 := State([Coll(ListK, [Ref(1)], [], None), Empty(ListK)], [0, 1], None, None);
    var st0 := Init().(heap := [Empty(ListK), Empty(ListK)]);
    assert Init().heap + [Empty(ListK)] == st0.heap;
    assert Last(st0.stack) == 0;
    assert st0.heap[0] == Coll(ListK, [], [], None);
    var empty: seq<Value> := [];
    assert empty + [Ref(1)] == [Ref(1)];
    var h := st0.heap[0 := Coll(ListK, [Ref(1)], [], None)];
    assert |h| == 2 && h[0] == st1.heap[0] && h[1] == st1.heap[1];
    assert h == st1.heap;
    assert Route(st0, Ref(1)) == Ok(st1.(stack := [0]));
    assert PushTree(st0, Ref(1), cfg.tags) == Ok(st1.(stack := [0]));
    assert [0] + [1] == [0, 1];
    assert |Init().heap| == 1;
    assert Feed(Init(), Open(ListK), cfg.tags) == Ok(st1);
    assert "("[1..] == "";
    assert Run(Init(), "(", cfg) == Run(st1, "", cfg);
  }

  // ---------------------------------------------------------------------
  // Sets and maps stay duplicate-free
  // ---------------------------------------------------------------------

  /** A set holds no value twice and a map no key twice. */
  predicate CollOk(c: Coll) {
    (c.kind == SetK ==> NoDuplicates(c.items)) && KeysUnique(c.entries)
  }

  /** Every collection built so far is duplicate-free. */
  predicate WellFormed(heap: Heap) {
    forall i :: 0 <= i < |heap| ==> CollOk(heap[i])
  }

  /** Overwriting the value of the last entry keeps the keys as they are. */
  lemma ReplaceLastValueKeepsKeys(entries: seq<Entry>, t: Value)
    requires |entries| > 0 && KeysUnique(entries)
    ensures KeysUnique(DropLast(entries) + [(Last(entries).0, t)])
  {
    var r := DropLast(entries) + [(Last(entries).0, t)];
    assert forall i :: 0 <= i < |r| ==> r[i].0 == entries[i].0;
  }

  lemma RouteKeepsWellFormed(st: State, el: Value)
    requires Valid(st) && WellFormed(st.heap)
    ensures Route(st, el).Ok? ==> WellFormed(Route(st, el).value.heap)
  {
    if |st.stack| > 0 {
      var top := Last(st.stack);
      var c := st.heap[top];
      if c.kind == MapK && st.objKey.Some? {
        AssignKeepsKeysUnique(c.entries, st.objKey.value, el);
      }
    }
  }

  lemma PushTreeKeepsWellFormed(st: State, v: Value, tags: map<string, Transformer>)
    requires Valid(st) && WellFormed(st.heap)
    requires v.Ref? ==> 0 < v.id < |st.heap|
    ensures PushTree(st, v, tags).Ok? ==> WellFormed(PushTree(st, v, tags).value.heap)
  {
    if !(st.tag.Some? && v.Nil?) {
      var heap := if st.tag.Some? && v.Ref? then st.heap[v.id := st.heap[v.id].(tag := st.tag)] else st.heap;
      var el := if st.tag.Some? && st.tag.value in tags && !v.Ref? then tags[st.tag.value](heap, v) else v;
      assert WellFormed(heap);
      RouteKeepsWellFormed(State(heap, st.stack, None, st.objKey), el);
    }
  }

  lemma PopStackKeepsWellFormed(st: State, tags: map<string, Transformer>)
    requires Valid(st) && |st.stack| > 0 && WellFormed(st.heap)
    ensures PopStack(st, tags).Ok? ==> WellFormed(PopStack(st, tags).value.heap)
  {
    var rest := DropLast(st.stack);
    if st.tag.None? && |rest| > 0 {
      var c := st.heap[Last(st.stack)];
      var pc := st.heap[Last(rest)];
      if c.tag.Some? && c.tag.value in tags && pc.kind == MapK && |pc.entries| > 0 {
        ReplaceLastValueKeepsKeys(pc.entries, tags[c.tag.value](st.heap, Ref(Last(st.stack))));
      }
    }
  }

  lemma FeedKeepsWellFormed(st: State, tok: Token, tags: map<string, Transformer>)
    requires Valid(st) && Lexical(tok) && WellFormed(st.heap)
    ensures Feed(st, tok, tags).Ok? ==> WellFormed(Feed(st, tok, tags).value.heap)
  {
    match tok
    case Open(kind) =>
      var st1 := st.(heap := st.heap + [Empty(kind)]);
      assert WellFormed(st1.heap);
      PushTreeKeepsWellFormed(st1, Ref(|st.heap|), tags);
    case Close(closer) =>
      if |st.stack| > 0 {
        PopStackKeepsWellFormed(st, tags);
      }
    case Scalar(v) =>
      PushTreeKeepsWellFormed(st, v, tags);
    case Comment =>
    case TagMark(_) =>
  }

  lemma {:induction false} RunKeepsWellFormed(st: State, s: string, cfg: Config)
    requires Valid(st) && WellFormed(st.heap)
    ensures Run(st, s, cfg).Ok? ==> WellFormed(Run(st, s, cfg).value.heap)
    decreases |s|
  {
    if |s| > 0 {
      var lx := Lex(s, cfg.unescape);
      if lx.Ok? {
        FeedKeepsWellFormed(st, lx.value.token, cfg.tags);
        var f := Feed(st, lx.value.token, cfg.tags);
        if f.Ok? {
          RunKeepsWellFormed(f.value, s[lx.value.len..], cfg);
        }
      }
    }
  }

  /** Every set the reader returns holds no value twice, and every map no key twice. */
  lemma ParseIsWellFormed(text: string, cfg: Config)
    ensures Parse(text, cfg).Ok? ==> WellFormed(Parse(text, cfg).value)
  {
    assert WellFormed(Init().heap);
    RunKeepsWellFormed(Init(), text[SepRun(text)..], cfg);
  }
}
