/** Counting the tokens of a message: every string, number and boolean in it, at any depth of its content, except in
    parts that are never model input. */
module TokenCounter {
  import opened Collections

  /** A JSON value as the counter sees it.  A number is its decimal form; anything it does not count is `Ignored`. */
  datatype Value =
    | Str(s: string)
    | Num(numeral: string)
    | Bool(b: bool)
    | List(items: seq<Item>)
    | Ignored

  /** The types the counter passes over, the tool call, and any other type. */
  datatype Kind = Think | Error | ActivityLabel | ImageUrl | ToolCall | Named(name: string)

  /** A list item: null or without a type, or a typed part with the value stored under its own type.  A tool call's
      argument strings are empty when they are missing or not strings. */
  datatype Item =
    | Untyped
    | Part(kind: Kind, nested: Value)
    | Call(name: string, args: string, output: string)

  /** The tokenizer. */
  type Tokenizer = string -> nat

  predicate Skipped(item: Item) {
    || item.Untyped?
    || (item.Part? && item.kind in {Think, Error, ActivityLabel, ImageUrl})
  }

  /** A nested value JavaScript takes for false. */
  predicate Falsy(v: Value) {
    match v
    case Str(s) => s == ""
    case Num(numeral) => numeral in {"0", "NaN"}
    case Bool(b) => !b
    case List(_) => false
    case Ignored => true
  }

  function NonEmpty(s: string, tok: Tokenizer): nat {
    if s == "" then 0 else tok(s)
  }

  /** The recursive sum the counter computes. */
  function Count(v: Value, tok: Tokenizer): nat {
    match v
    case Str(s) => tok(s)
    case Num(numeral) => tok(numeral)
    case Bool(b) => tok(if b then "true" else "false")
    case List(items) => CountAll(items, tok)
    case Ignored => 0
  }

  function CountAll(items: seq<Item>, tok: Tokenizer): nat {
    if items == [] then 0 else CountItem(items[0], tok) + CountAll(items[1..], tok)
  }

  function CountItem(item: Item, tok: Tokenizer): nat {
    if Skipped(item) then 0
    else match item
      case Untyped => 0
      case Call(name, args, output) => NonEmpty(name, tok) + NonEmpty(args, tok) + NonEmpty(output, tok)
      case Part(_, nested) => if Falsy(nested) then 0 else Count(nested, tok)
  }

  /** A message's own fields, in order. */
  type Fields = seq<(string, Value)>

  function TokensPerMessage(model: string): int {
    if model == "gpt-3.5-turbo-0301" then 4 else 3
  }

  function TokensPerName(model: string): int {
    if model == "gpt-3.5-turbo-0301" then -1 else 1
  }

  function CountFields(fields: Fields, model: string, tok: Tokenizer): int {
    if fields == [] then TokensPerMessage(model)
    else
      var (key, value) := fields[|fields| - 1];
      CountFields(fields[..|fields| - 1], model, tok) + Count(value, tok) + if key == "name" then TokensPerName(model) else 0
  }

  /** The counter, with its running total. */
  class Counter {
    const model: string
    const tok: Tokenizer
    var numTokens: int

    constructor (model: string, tok: Tokenizer)
      ensures this.model == model && this.tok == tok
    {
      this.model, this.tok := model, tok;
      numTokens := 0;
    }

    /** `processValue`: adds to the running total, recursing into list items. */
    method ProcessValue(value: Value)
      modifies this
      ensures numTokens == old(numTokens) + Count(value, tok)
      decreases value
    {
      match value
      case Str(s) => numTokens := numTokens + tok(s);
      case Num(numeral) => numTokens := numTokens + tok(numeral);
      case Bool(b) => numTokens := numTokens + tok(if b then "true" else "false");
      case Ignored =>
      case List(items) =>
        var i := 0;
        while i < |items|
          invariant 0 <= i <= |items|
          invariant numTokens + CountAll(items[i..], tok) == old(numTokens) + CountAll(items, tok)
        {
          assert items[i..][0] == items[i] && items[i..][1..] == items[i + 1..];
          var item := items[i];
          i := i + 1;
          if Skipped(item) {
            continue;
          }
          match item
          case Call(name, args, output) =>
            if name != "" { numTokens := numTokens + tok(name); }
            if args != "" { numTokens := numTokens + tok(args); }
            if output != "" { numTokens := numTokens + tok(output); }
          case Part(_, nested) =>
            if !Falsy(nested) {
              ProcessValue(nested);
            }
        }
    }

    /** `getTokenCountForMessage`. */
    method GetTokenCountForMessage(message: Fields) returns (total: int)
      modifies this
      ensures total == CountFields(message, model, tok)
    {
      numTokens := TokensPerMessage(model);
      var i := 0;
      while i < |message|
        invariant 0 <= i <= |message| && numTokens == CountFields(message[..i], model, tok)
      {
        assert message[..i + 1][..i] == message[..i];
        var (key, value) := message[i];
        ProcessValue(value);
        if key == "name" {
          numTokens := numTokens + TokensPerName(model);
        }
        i := i + 1;
      }
      assert message[..i] == message;
      total := numTokens;
    }
  }

  // ---------------------------------------------------------------- main results

  /** Counting is additive over content laid end to end. */
  lemma {:induction false} CountIsAdditive(a: seq<Item>, b: seq<Item>, tok: Tokenizer)
    ensures CountAll(a + b, tok) == CountAll(a, tok) + CountAll(b, tok)
  {
    if a == [] {
      assert a + b == b;
    } else {
      assert (a + b)[1..] == a[1..] + b;
      CountIsAdditive(a[1..], b, tok);
    }
  }

  lemma CountWithout(items: seq<Item>, k: nat, tok: Tokenizer)
    requires k < |items|
    ensures CountAll(items, tok) == CountItem(items[k], tok) + CountAll(items[..k] + items[k + 1..], tok)
  {
    var before, after := items[..k], items[k + 1..];
    assert items == before + ([items[k]] + after);
    assert ([items[k]] + after)[1..] == after;
    CountIsAdditive(before, [items[k]] + after, tok);
    CountIsAdditive(before, after, tok);
  }

  /** Reordering the parts does not change the count. */
  lemma {:induction false} CountIgnoresOrder(a: seq<Item>, b: seq<Item>, tok: Tokenizer)
    requires multiset(a) == multiset(b)
    ensures CountAll(a, tok) == CountAll(b, tok)
    decreases a
  {
    if a == [] {
      assert |multiset(b)| == 0;
    } else {
      var k := RemoveMatching(a, b);
      CountIgnoresOrder(a[1..], b[..k] + b[k + 1..], tok);
      CountWithout(b, k, tok);
    }
  }

  /** The value with every part that is passed over removed, at every depth. */
  function Strip(v: Value): Value {
    if v.List? then List(StripAll(v.items)) else v
  }

  function StripAll(items: seq<Item>): seq<Item> {
    if items == [] then []
    else (if Skipped(items[0]) then [] else [StripItem(items[0])]) + StripAll(items[1..])
  }

  function StripItem(item: Item): Item {
    if item.Part? then Part(item.kind, Strip(item.nested)) else item
  }

  lemma {:induction false} StripKeepsCount(v: Value, tok: Tokenizer)
    ensures Count(Strip(v), tok) == Count(v, tok)
    decreases v
  {
    if v.List? {
      StripAllKeepsCount(v.items, tok);
    }
  }

  lemma {:induction false} StripAllKeepsCount(items: seq<Item>, tok: Tokenizer)
    ensures CountAll(StripAll(items), tok) == CountAll(items, tok)
    decreases items
  {
    if items != [] {
      var rest := StripAll(items[1..]);
      StripAllKeepsCount(items[1..], tok);
      if Skipped(items[0]) {
        assert [] + rest == rest;
      } else {
        StripItemKeepsCount(items[0], tok);
        assert ([StripItem(items[0])] + rest)[1..] == rest;
      }
    }
  }

  lemma {:induction false} StripItemKeepsCount(item: Item, tok: Tokenizer)
    ensures CountItem(StripItem(item), tok) == CountItem(item, tok)
    decreases item
  {
    if item.Part? {
      StripKeepsCount(item.nested, tok);
    }
  }

  /** Think, error, activity-label and image parts, and items without a type, are never billed: values that differ only
      in such parts, at any depth, count the same. */
  lemma OnlyModelInputIsCounted(v: Value, w: Value, tok: Tokenizer)
    requires Strip(v) == Strip(w)
    ensures Count(v, tok) == Count(w, tok)
  {
    StripKeepsCount(v, tok);
    StripKeepsCount(w, tok);
  }

  lemma {:induction false} StripIsAdditive(a: seq<Item>, b: seq<Item>)
    ensures StripAll(a + b) == StripAll(a) + StripAll(b)
  {
    if a == [] {
      assert a + b == b;
    } else {
      assert (a + b)[1..] == a[1..] + b;
      StripIsAdditive(a[1..], b);
      Associate(if Skipped(a[0]) then [] else [StripItem(a[0])], StripAll(a[1..]), StripAll(b));
    }
  }

  /** Inserting such parts anywhere in a list is one of those differences. */
  lemma InsertedPartsAreStripped(before: seq<Item>, inserted: seq<Item>, after: seq<Item>)
    requires forall item :: item in inserted ==> Skipped(item)
    ensures StripAll(before + inserted + after) == StripAll(before + after)
  {
    StripIsAdditive(before + inserted, after);
    StripIsAdditive(before, inserted);
    StripIsAdditive(before, after);
    AllSkipped(inserted);
    assert StripAll(before) + [] == StripAll(before);
  }

  lemma {:induction false} AllSkipped(items: seq<Item>)
    requires forall item :: item in items ==> Skipped(item)
    ensures StripAll(items) == []
  {
    if items != [] {
      assert items[0] in items;
      AllSkipped(items[1..]);
    }
  }

  /** What one item adds to the count: nothing for one without a type and for the four types that are never model input;
      name, arguments and output for a tool call, empty ones adding nothing; and otherwise the item's own value, unless
      JavaScript takes it for false. */
  ghost predicate Adds(item: Item, n: nat, tok: Tokenizer) {
    match item
    case Untyped => n == 0
    case Call(name, args, output) =>
      n == (if name == "" then 0 else tok(name)) + (if args == "" then 0 else tok(args)) + (if output == "" then 0 else tok(output))
    case Part(kind, nested) =>
      if kind == Think || kind == Error || kind == ActivityLabel || kind == ImageUrl then n == 0
      else
        match nested
        case Str(s) => n == if s == "" then 0 else tok(s)
        case Num(numeral) => n == if numeral == "0" || numeral == "NaN" then 0 else tok(numeral)
        case Bool(b) => n == if b then tok("true") else 0
        case List(items) => n == CountAll(items, tok)
        case Ignored => n == 0
  }

  /** Putting an item anywhere into a list adds what that item counts. */
  lemma InsertedItemAdds(before: seq<Item>, item: Item, after: seq<Item>, tok: Tokenizer)
    ensures CountAll([], tok) == 0
    ensures CountAll(before + [item] + after, tok) >= CountAll(before + after, tok)
    ensures Adds(item, CountAll(before + [item] + after, tok) - CountAll(before + after, tok), tok)
  {
    var items := before + [item] + after;
    CountWithout(items, |before|, tok);
    assert items[..|before|] == before && items[|before| + 1..] == after;
  }

  /** A field of any other shape than a list counts its text, false and the empty string included. */
  lemma PlainValueCounts(v: Value, tok: Tokenizer)
    ensures match v
            case Str(s) => Count(v, tok) == tok(s)
            case Num(numeral) => Count(v, tok) == tok(numeral)
            case Bool(b) => Count(v, tok) == if b then tok("true") else tok("false")
            case List(items) => Count(v, tok) == CountAll(items, tok)
            case Ignored => Count(v, tok) == 0
  {
  }

  /** Putting a field anywhere into a message adds its value's count, and 1 for a name, or -1 for the one model counted
      differently; a message starts from 3, or 4 for that model. */
  lemma InsertedFieldAdds(before: Fields, key: string, value: Value, after: Fields, model: string, tok: Tokenizer)
    ensures CountFields([], model, tok) == if model == "gpt-3.5-turbo-0301" then 4 else 3
    ensures CountFields(before + [(key, value)] + after, model, tok) ==
            CountFields(before + after, model, tok) + Count(value, tok)
            + if key != "name" then 0 else if model == "gpt-3.5-turbo-0301" then -1 else 1
  {
    var fields := before + [(key, value)] + after;
    FieldsWithout(fields, |before|, model, tok);
    assert fields[..|before|] == before && fields[|before| + 1..] == after;
  }

  lemma {:induction false} FieldsWithout(fields: Fields, k: nat, model: string, tok: Tokenizer)
    requires k < |fields|
    ensures CountFields(fields, model, tok)
            == CountFields(fields[..k] + fields[k + 1..], model, tok)
               + Count(fields[k].1, tok) + if fields[k].0 == "name" then TokensPerName(model) else 0
  {
    var n := |fields| - 1;
    var rest := fields[..k] + fields[k + 1..];
    if k == n {
      assert rest == fields[..n];
    } else {
      FieldsWithout(fields[..n], k, model, tok);
      assert rest[..n - 1] == fields[..n][..k] + fields[..n][k + 1..] && rest[n - 1] == fields[n];
    }
  }

  /** Nor does the order of a message's fields. */
  lemma {:induction false} FieldsIgnoreOrder(a: Fields, b: Fields, model: string, tok: Tokenizer)
    requires multiset(a) == multiset(b)
    ensures CountFields(a, model, tok) == CountFields(b, model, tok)
    decreases a
  {
    if a == [] {
      assert |multiset(b)| == 0;
    } else {
      var k := RemoveMatching(a, b);
      FieldsIgnoreOrder(a[1..], b[..k] + b[k + 1..], model, tok);
      FieldsWithout(b, k, model, tok);
      FieldsWithout(a, 0, model, tok);
      assert a[..0] + a[1..] == a[1..];
    }
  }
}
