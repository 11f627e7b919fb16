/**
 * The value model shared by the EDN reader and writer.
 *
 * Scalars are plain values. Collections (lists, vectors, maps, sets) are
 * objects with an identity in the host language: the reader mutates them
 * while they are open, one pending map key may hold a collection that is
 * still open, a set deduplicates collections by identity, and the writer
 * refuses to visit the same collection twice. To keep that identity, every
 * collection lives in an arena (`Heap`) and is referred to by `Ref(id)`.
 */
module EdnValue {

  datatype Option<+T> = None | Some(value: T)

  datatype Result<+T> = Ok(value: T) | Err(error: Error)

  /** The four collection kinds, recorded on every collection (`$ednType$`). */
  datatype Kind = ListK | VectorK | MapK | SetK

  /**
   * A value as the host sees it. Symbols, keywords (colon stripped),
   * strings and characters are all plain text (`Str`). A float is kept as
   * its literal text, an integer as an unbounded `int`.
   */
  datatype Value =
    | Nil
    | Bool(b: bool)
    | Int(i: int)
    | Float(text: string)
    | Str(s: string)
    | Ref(id: nat)

  /** One key/value entry of a map, in insertion order. */
  type Entry = (Value, Value)

  /**
   * A collection object. Lists, vectors and sets use `items`, maps use
   * `entries`; `tag` is the tag name recorded on the collection (`$ednTag$`).
   */
  datatype Coll = Coll(kind: Kind, items: seq<Value>, entries: seq<Entry>, tag: Option<string>)

  /** All collection objects, addressed by their position. */
  type Heap = seq<Coll>

  /**
   * A tag transformer: it sees the collections built so far and the tagged
   * value, and returns the replacement value. Its body is the caller's.
   */
  type Transformer = (Heap, Value) -> Value

  /** Everything raised by the reader and by the writer. */
  datatype Error =
    // reader: structure
    | UnmatchedParen            // `)` while the innermost open collection is not a list
    | UnmatchedBracket          // `]` while the innermost open collection is not a vector
    | UnmatchedBrace            // `}` while the innermost open collection is neither set nor map
    | NoOpenCollection          // the root list was popped and the stack is empty
    // reader: tags
    | TagWithoutValue           // a closer reached while a tag is pending
    | TwoTagsInARow
    | TaggedNumber              // present in the code, never raised (see EdnBuilder.RunNeverRaisesTaggedNumber)
    | TaggedNil                 // recording a tag on `nil`
    | SetSlotReplace            // a transformed collection closes inside a set
    | MapSlotMissing            // a transformed collection closes inside a map with no entry
    // reader: literals
    | InvalidCharLiteral(name: string)
    | CannotParse(rest: string)
    // writer
    | UnsupportedValue          // nil, booleans, or a reference to no collection
    | EmptyCollection
    | RecursiveStructure        // a collection met a second time
    | UnsupportedKey            // a map key that is a collection

  /** Parameters of one reader call: the tag table and the host's `unescape`. */
  datatype Config = Config(tags: map<string, Transformer>, unescape: string -> string)

  /**
   * The tag table of a call: the built-in `inst` transformer, then every
   * entry the caller supplies, which overrides a built-in of the same name.
   */
  function MergeTransformers(inst: Transformer, user: map<string, Transformer>): (m: map<string, Transformer>)
    ensures m.Keys == user.Keys + {"inst"}
    ensures forall t :: t in user ==> m[t] == user[t]
    ensures "inst" !in user ==> m["inst"] == inst
  {
    map["inst" := inst] + user
  }

  /** The decimal digit character for `d`. */
  function DigitChar(d: nat): (c: char)
    requires d < 10
    ensures '0' <= c <= '9'
  {
    ('0' as int + d) as char
  }

  /** The decimal text of a natural number, without leading zeros. */
  function NatText(n: nat): (t: string)
    ensures |t| > 0
    ensures forall k :: 0 <= k < |t| ==> '0' <= t[k] <= '9'
    ensures |t| > 1 ==> t[0] != '0'
    decreases n
  {
    if n < 10 then [DigitChar(n)] else NatText(n / 10) + [DigitChar(n % 10)]
  }

  /** The text the host prints for an integer: an optional `-` and the digits. */
  function IntText(i: int): (t: string)
    ensures |t| > 0
  {
    if i < 0 then "-" + NatText(-i) else NatText(i)
  }
}
