/**
 * The reader as the code runs it: one object holding the state that
 * `parseEdn`'s closures share (edn.js:41-46), updated in place by
 * `pushTree`, `popStack` and the main loop. Each method is proved to do
 * what the corresponding function of EdnBuilder says, and `ParseEdn` to
 * return `EdnBuilder.Parse`.
 */
module EdnReader {
  import opened EdnValue
  import opened EdnLexer
  import opened EdnBuilder

  class Parser {
    const cfg: Config
    var heap: Heap
    var stack: seq<nat>
    var tag: Option<string>
    var objKey: Option<Value>
    var textLeft: string

    /** The builder state these fields hold. */
    function Snapshot(): State
      reads this
    {
      State(heap, stack, tag, objKey)
    }

    /** A fresh reader over `text`: only the root list is open (edn.js:41-46). */
    constructor (cfg: Config, text: string)
      ensures this.cfg == cfg && Snapshot() == Init() && textLeft == text
    {
      this.cfg := cfg;
      heap := [Empty(ListK)];
      stack := [0];
      tag := None;
      objKey := None;
      textLeft := text;
    }

    /** `pushTree` (edn.js:48-73). */
    method PushTree(v: Value) returns (err: Option<Error>)
      requires Valid(Snapshot())
      requires v.Ref? ==> 0 < v.id < |heap|
      modifies this
      ensures textLeft == old(textLeft)
      ensures EdnBuilder.PushTree(old(Snapshot()), v, cfg.tags).Ok? ==>
                err.None? && Snapshot() == EdnBuilder.PushTree(old(Snapshot()), v, cfg.tags).value
      ensures EdnBuilder.PushTree(old(Snapshot()), v, cfg.tags).Err? ==>
                err == Some(EdnBuilder.PushTree(old(Snapshot()), v, cfg.tags).error)
    {
      var el := v;
      if tag.Some? {
        if v.Nil? {
          return Some(TaggedNil);
        }
        if v.Ref? {
          heap := heap[v.id := heap[v.id].(tag := tag)];
        } else if tag.value in cfg.tags {
          el := cfg.tags[tag.value](heap, v);
        }
        tag := None;
      }
      if |stack| == 0 {
        if objKey.Some? {
          return Some(NoOpenCollection);
        }
        objKey := Some(el);
      } else {
        var top := stack[|stack| - 1];
        var c := heap[top];
        if c.kind == ListK || c.kind == VectorK {
          heap := heap[top := c.(items := c.items + [el])];
        } else if c.kind == SetK {
          if el !in c.items {
            heap := heap[top := c.(items := c.items + [el])];
          }
        } else if objKey.None? {
          objKey := Some(el);
        } else {
          heap := heap[top := c.(entries := Assign(c.entries, objKey.value, el))];
          objKey := None;
        }
      }
      return None;
    }

    /** `popStack` (edn.js:75-98). */
    method PopStack() returns (err: Option<Error>)
      requires Valid(Snapshot()) && |stack| > 0
      modifies this
      ensures textLeft == old(textLeft)
      ensures EdnBuilder.PopStack(old(Snapshot()), cfg.tags).Ok? ==>
                err.None? && Snapshot() == EdnBuilder.PopStack(old(Snapshot()), cfg.tags).value
      ensures EdnBuilder.PopStack(old(Snapshot()), cfg.tags).Err? ==>
                err == Some(EdnBuilder.PopStack(old(Snapshot()), cfg.tags).error)
    {
      if tag.Some? {
        return Some(TagWithoutValue);
      }
      var top := stack[|stack| - 1];
      var c := heap[top];
      if c.tag.Some? && c.tag.value in cfg.tags {
        var transformed := cfg.tags[c.tag.value](heap, Ref(top));
        stack := stack[..|stack| - 1];
        if |stack| == 0 {
          return Some(NoOpenCollection);
        }
        var p := stack[|stack| - 1];
        var pc := heap[p];
        if pc.kind == ListK || pc.kind == VectorK {
          heap := heap[p := pc.(items := DropLast(pc.items) + [transformed])];
        } else if pc.kind == MapK {
          if |pc.entries| == 0 {
            return Some(MapSlotMissing);
          }
          var lastKey := pc.entries[|pc.entries| - 1].0;
          heap := heap[p := pc.(entries := pc.entries[..|pc.entries| - 1] + [(lastKey, transformed)])];
        } else {
          return Some(SetSlotReplace);
        }
      } else {
        stack := stack[..|stack| - 1];
      }
      return None;
    }

    /** What the main loop does with one token (edn.js:104-262). */
    method Step(tok: Token) returns (err: Option<Error>)
      requires Valid(Snapshot()) && Lexical(tok)
      modifies this
      ensures textLeft == old(textLeft)
      ensures Feed(old(Snapshot()), tok, cfg.tags).Ok? ==>
                err.None? && Snapshot() == Feed(old(Snapshot()), tok, cfg.tags).value
      ensures Feed(old(Snapshot()), tok, cfg.tags).Err? ==>
                err == Some(Feed(old(Snapshot()), tok, cfg.tags).error)
    {
      match tok {
        case Open(kind) =>
          var id := |heap|;
          heap := heap + [Empty(kind)];
          err := PushTree(Ref(id));
          if err.Some? {
            return;
          }
          stack := stack + [id];
        case Close(closer) =>
          if |stack| == 0 {
            return Some(NoOpenCollection);
          }
          if !Closes(closer, heap[stack[|stack| - 1]].kind) {
            return Some(Mismatch(closer));
          }
          if closer == ')' && tag.Some? {
            return Some(TagWithoutValue);
          }
          err := PopStack();
        case Scalar(v) =>
          err := PushTree(v);
          if err.Some? {
            return;
          }
          if (v.Int? || v.Float?) && tag.Some? {
            return Some(TaggedNumber);
          }
        case Comment =>
          return None;
        case TagMark(name) =>
          if tag.Some? {
            return Some(TwoTagsInARow);
          }
          tag := Some(name);
          return None;
      }
    }

    /** The main loop of `parseEdn` (edn.js:101-266). */
    method Read() returns (r: Result<Heap>)
      requires Valid(Snapshot())
      modifies this
      ensures r == (match Run(old(Snapshot()), old(textLeft)[SepRun(old(textLeft))..], cfg)
                    case Ok(st) => Ok(st.heap)
                    case Err(e) => Err(e))
    {
      textLeft := textLeft[SepRun(textLeft)..];
      ghost var goal := Run(Snapshot(), textLeft, cfg);
      while |textLeft| > 0
        invariant Valid(Snapshot())
        invariant Run(Snapshot(), textLeft, cfg) == goal
        decreases |textLeft|
      {
        var lexed := Lex(textLeft, cfg.unescape);
        if lexed.Err? {
          return Err(lexed.error);
        }
        var err := Step(lexed.value.token);
        if err.Some? {
          return Err(err.value);
        }
        textLeft := textLeft[lexed.value.len..];
      }
      return Ok(heap);
    }
  }

  /**
   * `parseEdn(text, tagTransformers)` (edn.js:36-267): the caller's
   * transformers are laid over the built-in `inst` one (edn.js:37-40),
   * and the result is the collections built, collection 0 being the root
   * list, or the error raised. The built-in `inst` transformer (it builds
   * a host date) and the host's `unescape` are parameters.
   */
  method ParseEdn(text: string, user: map<string, Transformer>, inst: Transformer, unescape: string -> string)
    returns (r: Result<Heap>)
    ensures r == Parse(text, Config(MergeTransformers(inst, user), unescape))
  {
    var parser := new Parser(Config(MergeTransformers(inst, user), unescape), text);
    r := parser.Read();
  }
}
