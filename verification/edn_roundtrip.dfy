/**
 * Reading back what the writer prints. For a list, vector or set of
 * integers and strings (strings without quotes or backslashes, which the
 * writer does not escape), `parseEdn(stringifyEdn(c))` is a root list
 * holding one collection with the same elements in the same order. A
 * list comes back as a vector, because the writer prints both as `[...]`.
 * The separators between values, whichever they are, do not change what
 * is read, at top level as inside a vector or set.
 */
module EdnRoundTrip {
  import opened EdnValue
  import opened EdnLexer
  import opened EdnBuilder
  import opened EdnWriter

  /** A value the writer prints so that the reader gives it back. */
  predicate Plain(v: Value) {
    v.Int? || (v.Str? && '"' !in v.s && '\\' !in v.s)
  }

  predicate AllPlain(items: seq<Value>) {
    forall k :: 0 <= k < |items| ==> Plain(items[k])
  }

  /** What the writer prints for a plain value. */
  function PlainText(v: Value): (t: string)
    requires Plain(v)
    ensures |t| > 0 && !IsSep(t[0])
    ensures t[0] != ')' && t[0] != ']' && t[0] != '}'
  {
    if v.Int? then
      assert IntText(v.i)[0] == '-' || IsDigit(IntText(v.i)[0]) by {
        if v.i >= 0 { assert IntText(v.i)[0] == NatText(v.i)[0]; }
      }
      IntText(v.i)
    else "\"" + v.s + "\""
  }

  /** Separators only, possibly none. */
  predicate Seps(g: string) {
    forall k :: 0 <= k < |g| ==> IsSep(g[k])
  }

  /** A non-empty run of separators. */
  predicate Gap(g: string) {
    |g| > 0 && Seps(g)
  }

  /**
   * The separators after each of `n` values: at least one between two
   * values, any number (none included) after the last.
   */
  predicate Spacing(n: nat, gaps: seq<string>) {
    && |gaps| == n
    && (forall k :: 0 <= k < n - 1 ==> Gap(gaps[k]))
    && (n > 0 ==> Seps(gaps[n - 1]))
  }

  /** Plain values, each followed by its own separators. */
  function Spaced(items: seq<Value>, gaps: seq<string>): (t: string)
    requires AllPlain(items) && Spacing(|items|, gaps)
    ensures |items| == 0 ==> t == ""
    ensures |items| > 0 ==> |t| > 0 && !IsSep(t[0]) && t[0] != ')' && t[0] != ']' && t[0] != '}'
    decreases |items|
  {
    if |items| == 0 then ""
    else
      assert Spacing(|items| - 1, gaps[1..]) by {
        forall k | 0 <= k < |items| - 2
          ensures Gap(gaps[1..][k])
        {
          assert gaps[1..][k] == gaps[k + 1];
        }
      }
      PlainText(items[0]) + gaps[0] + Spaced(items[1..], gaps[1..])
  }

  /** The writer's separators: a comma between two values, nothing after the last. */
  function CommaGaps(n: nat): (gaps: seq<string>)
    ensures Spacing(n, gaps)
    ensures n > 1 ==> gaps[0] == "," && gaps[1..] == CommaGaps(n - 1)
    ensures n == 1 ==> gaps == [""]
  {
    if n == 0 then [] else if n == 1 then [""] else [","] + CommaGaps(n - 1)
  }

  /** The writer prints plain elements as their texts separated by bare commas. */
  lemma {:induction false} RenderPlainItems(heap: Heap, items: seq<Value>, seen: set<nat>)
    requires |items| > 0 && AllPlain(items)
    ensures RenderItems(heap, items, seen) == Ok(Rendered(Spaced(items, CommaGaps(|items|)), seen))
  {
    assert Render(heap, items[0], seen) == Ok(Rendered(PlainText(items[0]), seen));
    if |items| > 1 {
      RenderPlainItems(heap, items[1..], seen);
      var rest := Spaced(items[1..], CommaGaps(|items| - 1));
      assert PlainText(items[0]) + "," + rest == (PlainText(items[0]) + ",") + rest;
    } else {
      assert items[1..] == [];
      assert PlainText(items[0]) + "" + "" == PlainText(items[0]);
    }
  }

  /**
   * A plain value's text followed by a boundary reads back as that value;
   * `n` is the length of its text and the separators after it.
   */
  lemma LexPlain(v: Value, rest: string, u: string -> string, n: nat)
    requires Plain(v) && Boundary(rest) && n == |PlainText(v)| + SepRun(rest)
    ensures Lex(PlainText(v) + rest, u) == Ok(Lexeme(Scalar(v), n))
  {
    if v.Int? {
      LexIntText(v.i, rest, u, n);
    } else {
      LexPlainString(v.s, rest, u, n);
    }
  }

  /** A plain value goes last into the innermost list, vector or set that lacks it. */
  lemma FeedPlain(st: State, x: Value, tags: map<string, Transformer>)
    requires Valid(st) && st.tag.None? && |st.stack| > 0 && Plain(x)
    requires var c := st.heap[Last(st.stack)];
             c.kind == ListK || c.kind == VectorK || (c.kind == SetK && x !in c.items)
    ensures var top := Last(st.stack);
            var c := st.heap[top];
            Feed(st, Scalar(x), tags) == Ok(st.(heap := st.heap[top := c.(items := c.items + [x])]))
  {
  }

  /** What follows a value's text and the gap after it. */
  lemma AfterGap(t: string, gap: string, more: string, n: nat)
    requires n == |t| + |gap|
    ensures n <= |t + (gap + more)| && (t + (gap + more))[n..] == more
  {
  }

  /** The text ends, or a closer comes next. */
  predicate Ends(tail: string) {
    |tail| == 0 || tail[0] == ')' || tail[0] == ']' || tail[0] == '}'
  }

  /**
   * The separators after a token are exactly the gap that follows it
   * when a form, a closer or the end comes next; the gap may be empty
   * only before a closer or the end.
   */
  lemma GapRun(gap: string, more: string)
    requires Seps(gap) && (|more| == 0 || !IsSep(more[0]))
    requires |gap| > 0 || Ends(more)
    ensures Boundary(gap + more) && SepRun(gap + more) == |gap|
  {
    SepRunPrefix(gap, more);
    if |gap| > 0 {
      assert (gap + more)[0] == gap[0];
    } else {
      assert gap + more == more;
    }
  }

  /** The innermost open collection with more plain values at its end. */
  function Appended(st: State, xs: seq<Value>): (st1: State)
    requires Valid(st) && |st.stack| > 0
    ensures Valid(st1) && st1.stack == st.stack && st1.tag == st.tag
  {
    var top := Last(st.stack);
    st.(heap := st.heap[top := st.heap[top].(items := st.heap[top].items + xs)])
  }

  /** Appending nothing leaves the state as it is. */
  lemma AppendedNone(st: State)
    requires Valid(st) && |st.stack| > 0
    ensures Appended(st, []) == st
  {
    var top := Last(st.stack);
    assert st.heap[top].items + [] == st.heap[top].items;
    assert st.heap[top := st.heap[top]] == st.heap;
  }

  /** Appending one value and then the rest is appending them all. */
  lemma AppendedTwice(st: State, x: Value, xs: seq<Value>)
    requires Valid(st) && |st.stack| > 0
    ensures var c := st.heap[Last(st.stack)];
            var c1 := Appended(st, [x]).heap[Last(st.stack)];
            c1.kind == c.kind && c1.items + xs == c.items + ([x] + xs)
    ensures Appended(Appended(st, [x]), xs) == Appended(st, [x] + xs)
  {
    var top := Last(st.stack);
    var c := st.heap[top];
    assert c.items + [x] + xs == c.items + ([x] + xs);
  }

  /** The conditions under which plain values can go into the innermost collection. */
  predicate Receives(st: State, items: seq<Value>)
    requires Valid(st) && |st.stack| > 0
  {
    var c := st.heap[Last(st.stack)];
    c.kind == ListK || c.kind == VectorK || (c.kind == SetK && NoDuplicates(c.items + items))
  }

  /** The head of values that are new to a set is not in it yet. */
  lemma FirstIsNew(a: seq<Value>, b: seq<Value>)
    requires |b| > 0 && NoDuplicates(a + b)
    ensures b[0] !in a
    ensures NoDuplicates((a + [b[0]]) + b[1..])
  {
    assert (a + [b[0]]) + b[1..] == a + b;
    forall k | 0 <= k < |a|
      ensures a[k] != b[0]
    {
      assert (a + b)[k] == a[k] && (a + b)[|a|] == b[0];
    }
  }

  /** A plain value and the separators after it, read into the innermost collection. */
  lemma RunPlainThenGap(st: State, x: Value, gap: string, more: string, cfg: Config)
    requires Valid(st) && st.tag.None? && |st.stack| > 0 && Plain(x)
    requires var c := st.heap[Last(st.stack)];
             c.kind == ListK || c.kind == VectorK || (c.kind == SetK && x !in c.items)
    requires Seps(gap) && (|more| == 0 || !IsSep(more[0])) && (|gap| > 0 || Ends(more))
    ensures Run(st, PlainText(x) + (gap + more), cfg) == Run(Appended(st, [x]), more, cfg)
  {
    FeedPlain(st, x, cfg.tags);
    RunPlainToken(st, x, gap, more, cfg, Appended(st, [x]));
  }

  /** Spaced values: the first, its separators, and the rest. */
  lemma SpacedHead(items: seq<Value>, gaps: seq<string>, tail: string)
    requires |items| > 0 && AllPlain(items) && Spacing(|items|, gaps) && Ends(tail)
    ensures var more := Spaced(items[1..], gaps[1..]) + tail;
            && Spaced(items, gaps) + tail == PlainText(items[0]) + (gaps[0] + more)
            && Seps(gaps[0]) && (|more| == 0 || !IsSep(more[0])) && (|gaps[0]| > 0 || Ends(more))
  {
    var j := Spaced(items[1..], gaps[1..]);
    Regroup(PlainText(items[0]), gaps[0], j, tail);
    if |items| > 1 {
      assert (j + tail)[0] == j[0];
    } else {
      assert j + tail == tail;
    }
  }

  lemma Regroup(a: string, b: string, c: string, d: string)
    ensures a + b + c + d == a + (b + (c + d))
  {
  }

  /** After the first value goes in, the rest can follow it. */
  lemma ReceivesRest(st: State, items: seq<Value>)
    requires Valid(st) && |st.stack| > 0 && |items| > 0 && Receives(st, items)
    ensures Receives(Appended(st, [items[0]]), items[1..])
    ensures Appended(Appended(st, [items[0]]), items[1..]) == Appended(st, items)
  {
    var c := st.heap[Last(st.stack)];
    if c.kind == SetK {
      FirstIsNew(c.items, items);
    }
    assert [items[0]] + items[1..] == items;
    AppendedTwice(st, items[0], items[1..]);
  }

  /** The separators after each but the first of spaced values. */
  lemma SpacingRest(items: seq<Value>, gaps: seq<string>)
    requires |items| > 0 && AllPlain(items) && Spacing(|items|, gaps)
    ensures AllPlain(items[1..]) && Spacing(|items| - 1, gaps[1..])
  {
    forall k | 0 <= k < |items| - 2
      ensures Gap(gaps[1..][k])
    {
      assert gaps[1..][k] == gaps[k + 1];
    }
  }

  /**
   * Reading plain values, each followed by its separators, stores them in
   * order in the innermost open list, vector or set, up to the closer or
   * the end of the text that follows.
   */
  lemma {:induction false} RunSpaced(st: State, items: seq<Value>, gaps: seq<string>, tail: string, cfg: Config)
    requires Valid(st) && st.tag.None? && |st.stack| > 0
    requires AllPlain(items) && Spacing(|items|, gaps) && Receives(st, items) && Ends(tail)
    ensures Run(st, Spaced(items, gaps) + tail, cfg) == Run(Appended(st, items), tail, cfg)
    decreases |items|
  {
    if |items| == 0 {
      assert "" + tail == tail;
      AppendedNone(st);
    } else {
      var c := st.heap[Last(st.stack)];
      if c.kind == SetK {
        FirstIsNew(c.items, items);
      }
      SpacedHead(items, gaps, tail);
      var more := Spaced(items[1..], gaps[1..]) + tail;
      RunPlainThenGap(st, items[0], gaps[0], more, cfg);
      ReceivesRest(st, items);
      SpacingRest(items, gaps);
      RunSpaced(Appended(st, [items[0]]), items[1..], gaps[1..], tail, cfg);
    }
  }

  /**
   * The top-level forms: plain values with any separators before, between
   * and after them read as a root list holding exactly those values, in
   * order (`parseEdn("1 2")` is `[1, 2]`).
   */
  lemma TopLevelForms(lead: string, items: seq<Value>, gaps: seq<string>, cfg: Config)
    requires Seps(lead) && AllPlain(items) && Spacing(|items|, gaps)
    ensures Parse(lead + Spaced(items, gaps), cfg) == Ok([Coll(ListK, items, [], None)])
  {
    var text := Spaced(items, gaps);
    LeadingSeparatorsAreIgnored(lead, text, cfg);
    assert SepRun(text) == 0;
    assert text[0..] == text;
    assert text + "" == text;
    RunSpaced(Init(), items, gaps, "", cfg);
    var empty: seq<Value> := [];
    assert empty + items == items;
    assert Appended(Init(), items) == State([Coll(ListK, items, [], None)], [0], None, None);
  }

  /** How the writer opens and closes a collection of this kind. */
  function Opener(kind: Kind): string {
    if kind == SetK then "#{" else if kind == MapK then "{" else "["
  }

  function Closer(kind: Kind): char {
    if kind == SetK || kind == MapK then '}' else ']'
  }

  /** The first opener of a text makes collection 1, stored in the root list. */
  lemma OpenFirst(kind: Kind, tags: map<string, Transformer>)
    ensures Feed(Init(), Open(kind), tags)
         == Ok(State([Coll(ListK, [Ref(1)], [], None), Empty(kind)], [0, 1], None, None))
  {
    var st0 := Init().(heap := [Empty(ListK), Empty(kind)]);
    assert Init().heap + [Empty(kind)] == st0.heap;
    assert Last(st0.stack) == 0;
    var empty: seq<Value> := [];
    assert empty + [Ref(1)] == [Ref(1)];
    var h := st0.heap[0 := Coll(ListK, [Ref(1)], [], None)];
    assert h == [Coll(ListK, [Ref(1)], [], None), Empty(kind)];
    assert [0] + [1] == [0, 1];
  }

  /** The opener at the head of a printed collection swallows the separators after it. */
  lemma LexOpener(kind: Kind, lead: string, j: string, u: string -> string)
    requires kind != ListK
    requires Seps(lead) && |j| > 0 && !IsSep(j[0])
    ensures var text := Opener(kind) + (lead + j);
            var n := |Opener(kind)| + |lead|;
            Lex(text, u) == Ok(Lexeme(Open(kind), n)) && n <= |text| && text[n..] == j
  {
    OpenerHead(kind, lead + j, u);
    SkipSeps(Opener(kind), lead, j);
  }

  /** An opener reads as the opening of its kind of collection. */
  lemma OpenerHead(kind: Kind, r: string, u: string -> string)
    requires kind != ListK
    ensures Lex(Opener(kind) + r, u) == Ok(Take(Opener(kind) + r, Open(kind), |Opener(kind)|))
  {
    var t := Opener(kind) + r;
    if kind == SetK {
      assert t[0] == '#' && t[1] == '{';
    } else if kind == MapK {
      assert t[0] == '{';
    } else {
      assert t[0] == '[';
    }
  }

  /** After a token `o`, the separators `lead` are skipped up to `j`. */
  lemma SkipSeps(o: string, lead: string, j: string)
    requires Seps(lead) && |j| > 0 && !IsSep(j[0])
    ensures var text := o + (lead + j);
            SepRun(text[|o|..]) == |lead| && text[|o| + |lead|..] == j
  {
    var text := o + (lead + j);
    assert text[|o|..] == lead + j;
    SepRunPrefix(lead, j);
    assert text[|o| + |lead|..] == j;
  }

  /** The closer of the only open collection ends the read. */
  lemma RunCloser(st: State, kind: Kind, cfg: Config)
    requires Valid(st) && st.tag.None? && st.stack == [0, 1] && |st.heap| == 2
    requires st.heap[1].kind == kind && st.heap[1].tag.None? && kind != ListK
    ensures Run(st, [Closer(kind)], cfg) == Ok(st.(stack := [0]))
  {
    assert Lex([Closer(kind)], cfg.unescape) == Ok(Lexeme(Close(Closer(kind)), 1));
    assert Last(st.stack) == 1 && DropLast(st.stack) == [0];
    assert PopStack(st, cfg.tags) == Ok(st.(stack := [0]));
    assert Feed(st, Close(Closer(kind)), cfg.tags) == Ok(st.(stack := [0]));
    RunStep(st, [Closer(kind)], cfg, Close(Closer(kind)), 1, st.(stack := [0]));
    assert [Closer(kind)][1..] == "";
  }

  /** The opener, and the separators after it, open collection 1 inside the root list. */
  lemma RunOpener(kind: Kind, lead: string, j: string, cfg: Config)
    requires kind != ListK
    requires Seps(lead) && |j| > 0 && !IsSep(j[0])
    ensures Run(Init(), Opener(kind) + (lead + j), cfg)
         == Run(State([Coll(ListK, [Ref(1)], [], None), Empty(kind)], [0, 1], None, None), j, cfg)
  {
    LexOpener(kind, lead, j, cfg.unescape);
    OpenFirst(kind, cfg.tags);
    RunStep(Init(), Opener(kind) + (lead + j), cfg, Open(kind), |Opener(kind)| + |lead|,
            State([Coll(ListK, [Ref(1)], [], None), Empty(kind)], [0, 1], None, None));
  }

  /** The values of collection 1 and its closer. */
  lemma RunItemsThenCloser(kind: Kind, items: seq<Value>, gaps: seq<string>, cfg: Config)
    requires kind == VectorK || kind == SetK
    requires AllPlain(items) && Spacing(|items|, gaps)
    requires kind == SetK ==> NoDuplicates(items)
    ensures Run(State([Coll(ListK, [Ref(1)], [], None), Empty(kind)], [0, 1], None, None),
                Spaced(items, gaps) + [Closer(kind)], cfg)
         == Ok(State([Coll(ListK, [Ref(1)], [], None), Coll(kind, items, [], None)], [0], None, None))
  {
    var st2 := State([Coll(ListK, [Ref(1)], [], None), Empty(kind)], [0, 1], None, None);
    var empty: seq<Value> := [];
    assert empty + items == items;
    RunSpaced(st2, items, gaps, [Closer(kind)], cfg);
    var st3 := st2.(heap := [Coll(ListK, [Ref(1)], [], None), Coll(kind, items, [], None)]);
    assert Appended(st2, items) == st3;
    RunCloser(st3, kind, cfg);
  }

  /**
   * A vector or set of plain values, with any separators after the
   * opener and after each value (at least one between two values),
   * reads as a root list holding that one collection.
   */
  lemma ReadBackItems(kind: Kind, lead: string, items: seq<Value>, gaps: seq<string>, cfg: Config)
    requires kind == VectorK || kind == SetK
    requires Seps(lead) && AllPlain(items) && Spacing(|items|, gaps)
    requires kind == SetK ==> NoDuplicates(items)
    ensures Parse(Opener(kind) + lead + Spaced(items, gaps) + [Closer(kind)], cfg)
         == Ok([Coll(ListK, [Ref(1)], [], None), Coll(kind, items, [], None)])
  {
    Regroup(Opener(kind), lead, Spaced(items, gaps), [Closer(kind)]);
    OpenerFirst(kind, lead + (Spaced(items, gaps) + [Closer(kind)]));
    RunReadBack(kind, lead, items, gaps, cfg);
    ParseFromRun(Opener(kind) + (lead + (Spaced(items, gaps) + [Closer(kind)])),
                 State([Coll(ListK, [Ref(1)], [], None), Coll(kind, items, [], None)], [0], None, None), cfg);
  }

  /** A printed collection starts with its opener. */
  lemma OpenerFirst(kind: Kind, rest: string)
    ensures |Opener(kind) + rest| > 0 && !IsSep((Opener(kind) + rest)[0])
  {
    assert (Opener(kind) + rest)[0] == Opener(kind)[0];
  }

  /** Reading a printed vector or set from the start. */
  lemma RunReadBack(kind: Kind, lead: string, items: seq<Value>, gaps: seq<string>, cfg: Config)
    requires kind == VectorK || kind == SetK
    requires Seps(lead) && AllPlain(items) && Spacing(|items|, gaps)
    requires kind == SetK ==> NoDuplicates(items)
    ensures Run(Init(), Opener(kind) + (lead + (Spaced(items, gaps) + [Closer(kind)])), cfg)
         == Ok(State([Coll(ListK, [Ref(1)], [], None), Coll(kind, items, [], None)], [0], None, None))
  {
    var j := Spaced(items, gaps) + [Closer(kind)];
    assert j[0] == (if |items| == 0 then Closer(kind) else Spaced(items, gaps)[0]);
    RunOpener(kind, lead, j, cfg);
    RunItemsThenCloser(kind, items, gaps, cfg);
  }

  /** A text that starts with a form parses to what reading it from the start builds. */
  lemma ParseFromRun(text: string, st: State, cfg: Config)
    requires |text| > 0 && !IsSep(text[0]) && Run(Init(), text, cfg) == Ok(st)
    ensures Parse(text, cfg) == Ok(st.heap)
  {
    assert SepRun(text) == 0;
    assert text[0..] == text;
  }

  /** Two map entries' texts and what the writer prints for them. */
  function EntryText(e: Entry): string
    requires !e.0.Ref? && Plain(e.1)
  {
    "\"" + KeyText(e.0).value + "\" " + PlainText(e.1)
  }

  /** Entries with scalar keys and plain values. */
  predicate PlainEntries(entries: seq<Entry>) {
    forall k :: 0 <= k < |entries| ==> !entries[k].0.Ref? && Plain(entries[k].1)
  }

  /** `"key" value` for each entry, separated by bare commas. */
  function EntriesText(entries: seq<Entry>): string
    requires |entries| > 0 && PlainEntries(entries)
  {
    if |entries| == 1 then EntryText(entries[0])
    else EntryText(entries[0]) + "," + EntriesText(entries[1..])
  }

  /**
   * The writer prints each entry of a map as its key between quotes, a
   * space and the value's text, separated by commas (edn.js:300-310),
   * and visits nothing.
   */
  lemma {:induction false} RenderPlainEntries(heap: Heap, entries: seq<Entry>, seen: set<nat>)
    requires |entries| > 0 && PlainEntries(entries)
    ensures RenderEntries(heap, entries, seen) == Ok(Rendered(EntriesText(entries), seen))
  {
    var e := entries[0];
    assert Render(heap, e.1, seen) == Ok(Rendered(PlainText(e.1), seen));
    assert RenderEntry(heap, e, seen) == Ok(Rendered(EntryText(e), seen));
    if |entries| > 1 {
      RenderPlainEntries(heap, entries[1..], seen);
      assert EntryText(e) + "," + EntriesText(entries[1..]) == (EntryText(e) + ",") + EntriesText(entries[1..]);
    }
  }

  /**
   * A collection of plain values, printed (edn.js:272-312): a map as
   * `{"k" v,...}`, a set as `#{a,...}`, a list or vector as `[a,...]`.
   * It is marked visited.
   */
  lemma RenderPlainCollection(heap: Heap, id: nat, seen: set<nat>)
    requires id < |heap| && id !in seen
    requires heap[id].kind == MapK ==> |heap[id].entries| > 0 && PlainEntries(heap[id].entries)
    requires heap[id].kind != MapK ==> |heap[id].items| > 0 && AllPlain(heap[id].items)
    ensures var c := heap[id];
            Render(heap, Ref(id), seen) == Ok(Rendered(
              if c.kind == MapK then "{" + EntriesText(c.entries) + "}"
              else Opener(c.kind) + Spaced(c.items, CommaGaps(|c.items|)) + [Closer(c.kind)],
              seen + {id}))
  {
    var c := heap[id];
    if c.kind == MapK {
      RenderPlainEntries(heap, c.entries, seen + {id});
    } else {
      RenderPlainItems(heap, c.items, seen + {id});
    }
  }

  /**
   * `parseEdn(stringifyEdn(c))` for a list, vector or set `c` of plain
   * values: the writer succeeds, and reading its text gives back `c`'s
   * elements in order, in a vector when `c` was a list or vector.
   */
  lemma ParseOfStringify(heap: Heap, id: nat, cfg: Config)
    requires id < |heap| && heap[id].kind != MapK
    requires |heap[id].items| > 0 && AllPlain(heap[id].items)
    requires heap[id].kind == SetK ==> NoDuplicates(heap[id].items)
    ensures Stringify(heap, Ref(id)).Ok?
    ensures var kind := if heap[id].kind == SetK then SetK else VectorK;
            Parse(Stringify(heap, Ref(id)).value, cfg)
              == Ok([Coll(ListK, [Ref(1)], [], None), Coll(kind, heap[id].items, [], None)])
  {
    var c := heap[id];
    var kind := if c.kind == SetK then SetK else VectorK;
    var gaps := CommaGaps(|c.items|);
    StringifyPlain(heap, id);
    NoLead(Opener(kind), Spaced(c.items, gaps));
    ReadBackItems(kind, "", c.items, gaps, cfg);
  }

  lemma NoLead(o: string, j: string)
    ensures o + "" + j == o + j
  {
  }

  /** The text of a list, vector or set of plain values. */
  lemma StringifyPlain(heap: Heap, id: nat)
    requires id < |heap| && heap[id].kind != MapK
    requires |heap[id].items| > 0 && AllPlain(heap[id].items)
    ensures var c := heap[id];
            var kind := if c.kind == SetK then SetK else VectorK;
            Stringify(heap, Ref(id)) == Ok(Opener(kind) + Spaced(c.items, CommaGaps(|c.items|)) + [Closer(kind)])
  {
    RenderPlainCollection(heap, id, {});
  }

  /**
   * Only the separators differ, so `[1,2, 3]`, `[1 2 3]` and `[ 1,2,3, ]`
   * read alike, and so do the same forms at top level.
   */
  lemma GapsDoNotMatter(items: seq<Value>, lead1: string, gaps1: seq<string>, lead2: string, gaps2: seq<string>, cfg: Config)
    requires AllPlain(items) && Seps(lead1) && Seps(lead2)
    requires Spacing(|items|, gaps1) && Spacing(|items|, gaps2)
    ensures Parse("[" + lead1 + Spaced(items, gaps1) + "]", cfg) == Parse("[" + lead2 + Spaced(items, gaps2) + "]", cfg)
    ensures Parse(lead1 + Spaced(items, gaps1), cfg) == Parse(lead2 + Spaced(items, gaps2), cfg)
  {
    ReadBackItems(VectorK, lead1, items, gaps1, cfg);
    ReadBackItems(VectorK, lead2, items, gaps2, cfg);
    TopLevelForms(lead1, items, gaps1, cfg);
    TopLevelForms(lead2, items, gaps2, cfg);
  }

  // ---------------------------------------------------------------------
  // Maps
  // ---------------------------------------------------------------------

  /** Entries whose keys and values are plain and whose keys are strings. */
  predicate StrKeyed(entries: seq<Entry>) {
    forall k :: 0 <= k < |entries| ==> entries[k].0.Str? && Plain(entries[k].0) && Plain(entries[k].1)
  }

  /** A string key prints as its own text between quotes. */
  lemma StrKeyText(e: Entry)
    requires e.0.Str? && Plain(e.0) && Plain(e.1)
    ensures EntryText(e) == PlainText(e.0) + (" " + PlainText(e.1))
  {
  }

  /** A key absent from unique keys, as `Assign` sees it. */
  lemma NewKeyIsAbsent(a: seq<Entry>, b: seq<Entry>)
    requires |b| > 0 && KeysUnique(a + b)
    ensures Lookup(a, b[0].0).None?
    ensures KeysUnique((a + [b[0]]) + b[1..])
  {
    assert (a + [b[0]]) + b[1..] == a + b;
    forall i | 0 <= i < |a|
      ensures a[i].0 != b[0].0
    {
      assert (a + b)[i] == a[i] && (a + b)[|a|] == b[0];
    }
    if Lookup(a, b[0].0).Some? {
      LookupSomeHasIndex(a, b[0].0);
    }
  }

  /** The innermost open map with more entries at its end. */
  function Extended(st: State, es: seq<Entry>): (st1: State)
    requires Valid(st) && |st.stack| > 0
    ensures Valid(st1) && st1.stack == st.stack && st1.tag == st.tag && st1.objKey == st.objKey
  {
    var top := Last(st.stack);
    st.(heap := st.heap[top := st.heap[top].(entries := st.heap[top].entries + es)])
  }

  /** A plain key and then a plain value, read into the innermost map. */
  lemma RunEntry(st: State, e: Entry, gap: string, more: string, cfg: Config)
    requires Valid(st) && st.tag.None? && st.objKey.None? && |st.stack| > 0
    requires st.heap[Last(st.stack)].kind == MapK
    requires e.0.Str? && Plain(e.0) && Plain(e.1) && Lookup(st.heap[Last(st.stack)].entries, e.0).None?
    requires Seps(gap) && (|more| == 0 || !IsSep(more[0])) && (|gap| > 0 || Ends(more))
    ensures Run(st, EntryText(e) + (gap + more), cfg) == Run(Extended(st, [e]), more, cfg)
  {
    var rest := PlainText(e.1) + (gap + more);
    StrKeyText(e);
    assert EntryText(e) + (gap + more) == PlainText(e.0) + (" " + rest);
    assert rest[0] == PlainText(e.1)[0];
    var st1 := st.(objKey := Some(e.0));
    FeedEntry(st, e, cfg.tags);
    RunPlainToken(st, e.0, " ", rest, cfg, st1);
    RunPlainToken(st1, e.1, gap, more, cfg, Extended(st, [e]));
  }

  /** A map's key is kept as the pending key, and its value is then stored under it. */
  lemma FeedEntry(st: State, e: Entry, tags: map<string, Transformer>)
    requires Valid(st) && st.tag.None? && st.objKey.None? && |st.stack| > 0
    requires st.heap[Last(st.stack)].kind == MapK
    requires e.0.Str? && Plain(e.0) && Plain(e.1) && Lookup(st.heap[Last(st.stack)].entries, e.0).None?
    ensures Feed(st, Scalar(e.0), tags) == Ok(st.(objKey := Some(e.0)))
    ensures Feed(st.(objKey := Some(e.0)), Scalar(e.1), tags) == Ok(Extended(st, [e]))
  {
  }

  /** A plain value and the separators after it, read and fed. */
  lemma RunPlainToken(st: State, x: Value, gap: string, more: string, cfg: Config, st1: State)
    requires Valid(st) && Plain(x) && Feed(st, Scalar(x), cfg.tags) == Ok(st1)
    requires Seps(gap) && (|more| == 0 || !IsSep(more[0])) && (|gap| > 0 || Ends(more))
    ensures Run(st, PlainText(x) + (gap + more), cfg) == Run(st1, more, cfg)
  {
    var n := |PlainText(x)| + |gap|;
    GapRun(gap, more);
    LexPlain(x, gap + more, cfg.unescape, n);
    AfterGap(PlainText(x), gap, more, n);
    RunStep(st, PlainText(x) + (gap + more), cfg, Scalar(x), n, st1);
  }

  /** Entries' texts: the first, its comma, and the rest. */
  lemma EntriesHead(entries: seq<Entry>, tail: string)
    requires |entries| > 0 && StrKeyed(entries) && Ends(tail)
    ensures PlainEntries(entries) && StrKeyed(entries[1..])
    ensures var gap := if |entries| == 1 then "" else ",";
            var more := if |entries| == 1 then tail else EntriesText(entries[1..]) + tail;
            && EntriesText(entries) + tail == EntryText(entries[0]) + (gap + more)
            && Seps(gap) && (|more| == 0 || !IsSep(more[0])) && (|gap| > 0 || Ends(more))
  {
    assert forall k :: 0 <= k < |entries| - 1 ==> entries[1..][k] == entries[k + 1];
    if |entries| > 1 {
      var r := EntriesText(entries[1..]);
      EntriesTextStart(entries[1..]);
      assert (r + tail)[0] == r[0];
      Regroup(EntryText(entries[0]), ",", r, tail);
    } else {
      assert EntryText(entries[0]) + ("" + tail) == EntryText(entries[0]) + tail;
    }
  }

  /** Extending by one entry and then the rest is extending by them all. */
  lemma ExtendedTwice(st: State, e: Entry, es: seq<Entry>)
    requires Valid(st) && |st.stack| > 0
    ensures Extended(Extended(st, [e]), es) == Extended(st, [e] + es)
    ensures Extended(st, [e]).heap[Last(st.stack)].entries == st.heap[Last(st.stack)].entries + [e]
  {
    var top := Last(st.stack);
    var c := st.heap[top];
    assert c.entries + [e] + es == c.entries + ([e] + es);
  }

  /**
   * Reading the writer's text of map entries with string keys, when none
   * of the keys is in the innermost open map yet, appends the entries to
   * that map in order, up to the closer or the end that follows.
   */
  lemma {:induction false} RunEntries(st: State, entries: seq<Entry>, tail: string, cfg: Config)
    requires Valid(st) && st.tag.None? && st.objKey.None? && |st.stack| > 0
    requires st.heap[Last(st.stack)].kind == MapK
    requires |entries| > 0 && StrKeyed(entries) && Ends(tail)
    requires KeysUnique(st.heap[Last(st.stack)].entries + entries)
    ensures PlainEntries(entries)
    ensures Run(st, EntriesText(entries) + tail, cfg) == Run(Extended(st, entries), tail, cfg)
    decreases |entries|
  {
    RunFirstEntry(st, entries, tail, cfg);
    ExtendedTwice(st, entries[0], entries[1..]);
    assert [entries[0]] + entries[1..] == entries;
    if |entries| > 1 {
      RunEntries(Extended(st, [entries[0]]), entries[1..], tail, cfg);
    } else {
      assert entries == [entries[0]];
    }
  }

  /** The first entry of the writer's text of map entries, read into the innermost map. */
  lemma RunFirstEntry(st: State, entries: seq<Entry>, tail: string, cfg: Config)
    requires Valid(st) && st.tag.None? && st.objKey.None? && |st.stack| > 0
    requires st.heap[Last(st.stack)].kind == MapK
    requires |entries| > 0 && StrKeyed(entries) && Ends(tail)
    requires KeysUnique(st.heap[Last(st.stack)].entries + entries)
    ensures PlainEntries(entries) && StrKeyed(entries[1..])
    ensures KeysUnique(st.heap[Last(st.stack)].entries + [entries[0]] + entries[1..])
    ensures Run(st, EntriesText(entries) + tail, cfg)
         == Run(Extended(st, [entries[0]]), if |entries| == 1 then tail else EntriesText(entries[1..]) + tail, cfg)
  {
    var c := st.heap[Last(st.stack)];
    EntriesHead(entries, tail);
    NewKeyIsAbsent(c.entries, entries);
    var gap := if |entries| == 1 then "" else ",";
    var more := if |entries| == 1 then tail else EntriesText(entries[1..]) + tail;
    RunEntry(st, entries[0], gap, more, cfg);
  }

  /** A map's entries and its closer, read into collection 1. */
  lemma RunEntriesThenCloser(entries: seq<Entry>, cfg: Config)
    requires |entries| > 0 && StrKeyed(entries) && KeysUnique(entries)
    ensures PlainEntries(entries)
    ensures Run(State([Coll(ListK, [Ref(1)], [], None), Empty(MapK)], [0, 1], None, None),
                EntriesText(entries) + [Closer(MapK)], cfg)
         == Ok(State([Coll(ListK, [Ref(1)], [], None), Coll(MapK, [], entries, None)], [0], None, None))
  {
    var st2 := State([Coll(ListK, [Ref(1)], [], None), Empty(MapK)], [0, 1], None, None);
    var none: seq<Entry> := [];
    assert none + entries == entries;
    RunEntries(st2, entries, [Closer(MapK)], cfg);
    var st3 := st2.(heap := [Coll(ListK, [Ref(1)], [], None), Coll(MapK, [], entries, None)]);
    assert Extended(st2, entries) == st3;
    RunCloser(st3, MapK, cfg);
  }

  /**
   * A map of string keys and plain values, printed as the writer does,
   * with any separators after the `{`, reads as a root list holding that
   * one map, its entries in order.
   */
  lemma ReadBackEntries(lead: string, entries: seq<Entry>, cfg: Config)
    requires Seps(lead) && |entries| > 0 && StrKeyed(entries) && KeysUnique(entries)
    ensures PlainEntries(entries)
    ensures Parse(Opener(MapK) + lead + EntriesText(entries) + [Closer(MapK)], cfg)
         == Ok([Coll(ListK, [Ref(1)], [], None), Coll(MapK, [], entries, None)])
  {
    var e := EntriesText(entries);
    Regroup(Opener(MapK), lead, e, [Closer(MapK)]);
    OpenerFirst(MapK, lead + (e + [Closer(MapK)]));
    RunReadBackMap(lead, entries, cfg);
    ParseFromRun(Opener(MapK) + (lead + (e + [Closer(MapK)])),
                 State([Coll(ListK, [Ref(1)], [], None), Coll(MapK, [], entries, None)], [0], None, None), cfg);
  }

  /** The text of map entries starts with the first key's quote. */
  lemma EntriesTextStart(entries: seq<Entry>)
    requires |entries| > 0 && PlainEntries(entries)
    ensures |EntriesText(entries)| > 0 && EntriesText(entries)[0] == '"'
  {
    var t := EntryText(entries[0]);
    assert t[0] == '"';
    if |entries| > 1 {
      assert EntriesText(entries) == t + ("," + EntriesText(entries[1..]));
    }
  }

  /** Reading a printed map from the start. */
  lemma RunReadBackMap(lead: string, entries: seq<Entry>, cfg: Config)
    requires Seps(lead) && |entries| > 0 && StrKeyed(entries) && KeysUnique(entries)
    ensures PlainEntries(entries)
    ensures Run(Init(), Opener(MapK) + (lead + (EntriesText(entries) + [Closer(MapK)])), cfg)
         == Ok(State([Coll(ListK, [Ref(1)], [], None), Coll(MapK, [], entries, None)], [0], None, None))
  {
    RunEntriesThenCloser(entries, cfg);
    var j := EntriesText(entries) + [Closer(MapK)];
    EntriesTextStart(entries);
    assert j[0] == '"';
    RunOpener(MapK, lead, j, cfg);
  }

  /**
   * `parseEdn(stringifyEdn(m))` for a map `m` of string keys and plain
   * values: the writer succeeds, and its text reads back as the same map.
   */
  lemma ParseOfStringifyMap(heap: Heap, id: nat, cfg: Config)
    requires id < |heap| && heap[id].kind == MapK
    requires |heap[id].entries| > 0 && StrKeyed(heap[id].entries) && KeysUnique(heap[id].entries)
    ensures Stringify(heap, Ref(id)).Ok?
    ensures Parse(Stringify(heap, Ref(id)).value, cfg)
         == Ok([Coll(ListK, [Ref(1)], [], None), Coll(MapK, [], heap[id].entries, None)])
  {
    ReadBackEntries("", heap[id].entries, cfg);
    RenderPlainCollection(heap, id, {});
    NoLead(Opener(MapK), EntriesText(heap[id].entries));
  }
}
