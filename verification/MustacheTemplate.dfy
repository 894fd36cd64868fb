/** Mustache templates as trees: what they mean, and the flat code they are compiled to. */
module MustacheTemplate {
  import opened Options

  /** What a template is filled with. A number is kept as the text it is printed as. */
  datatype Value =
    | Null
    | False
    | True
    | Number(text: string)
    | String(s: string)
    | List(l: seq<Value>)
    | Object(o: map<string, Value>)

  /** A tag and the text before it. */
  datatype Item = Item(text: string, node: Node)

  datatype Node =
    | Tag(name: string, raw: bool)
    | Note
    | Section(block: string, inverted: bool, items: seq<Item>, tail: string)

  // ---- meaning ----

  // ---- where a tag stands ----

  /** A block around a place: whether it is a section or an inverted one, and how many inverted sections
      ended before it in the block around it. */
  datatype Scope = Scope(section: bool, ended: nat)

  /** The blocks around a place, outermost first, and the inverted sections that ended before it. */
  datatype Place = Place(scopes: seq<Scope>, ended: nat)

  const TOP := Place([], 0)

  /** How the source looks for a section around a place: every inverted section that ended on the way stands
      for one section that it passes over. */
  predicate Reaches(scopes: seq<Scope>, ended: nat) {
    if scopes == [] then false
    else
      var n := |scopes| - 1;
      var s := scopes[n];
      if s.section then ended == 0 || Reaches(scopes[..n], ended - 1 + s.ended)
      else Reaches(scopes[..n], ended + s.ended)
  }

  /** A tag in a section that was entered with an object; it looks up names with dots in this object only. */
  predicate Narrow(stack: seq<Value>, place: Place)
    requires stack != []
  {
    stack[|stack| - 1].Object? && Reaches(place.scopes, place.ended)
  }

  /** The number of inverted sections in an item, with the item itself. */
  function Inverted(node: Node): nat
    decreases node, 0
  {
    if node.Section? then (if node.inverted then 1 else 0) + InvertedAll(node.items) else 0
  }

  function InvertedAll(items: seq<Item>): nat
    decreases items, 1
  {
    if items == [] then 0 else InvertedAll(items[..|items| - 1]) + Inverted(items[|items| - 1].node)
  }

  function Behind(place: Place, node: Node): Place { place.(ended := place.ended + Inverted(node)) }

  function Within(place: Place, node: Node): Place
    requires node.Section?
  {
    Place(place.scopes + [Scope(!node.inverted, place.ended)], 0)
  }

  // ---- names ----

  /** The parts of a name between its dots, from position `i` on. */
  function Names(name: string, i: nat): (r: seq<string>)
    requires i <= |name|
    ensures r != []
    decreases |name| - i
  {
    var d := DotAt(name, i);
    if d == |name| then [name[i..]] else [name[i..d]] + Names(name, d + 1)
  }

  /** The first dot from position `i` on, or the end. */
  function DotAt(name: string, i: nat): (d: nat)
    requires i <= |name|
    ensures i <= d <= |name| && (forall j :: i <= j < d ==> name[j] != '.') && (d < |name| ==> name[d] == '.')
    decreases |name| - i
  {
    if i == |name| || name[i] == '.' then i else DotAt(name, i + 1)
  }

  /** From one object to the next by their names. */
  function Follow(names: seq<string>, view: Value): Option<Value> {
    if names == [] then Some(view)
    else if view.Object? && names[0] in view.o then Follow(names[1..], view.o[names[0]])
    else None
  }

  /** The innermost context from which the names lead on; if it is narrow, only the top is tried. */
  function Lookup(names: seq<string>, stack: seq<Value>, narrow: bool): Option<Value> {
    if stack == [] then None
    else
      var r := Follow(names, stack[|stack| - 1]);
      if r.Some? || narrow then r else Lookup(names, stack[..|stack| - 1], narrow)
  }

  function Context(name: string, stack: seq<Value>, narrow: bool): Option<Value>
    requires stack != []
  {
    if name == "." then Some(stack[|stack| - 1]) else Lookup(Names(name, 0), stack, narrow && '.' in name)
  }

  function EscapeChar(c: char): string {
    if c == '&' then "&amp;"
    else if c == '<' then "&lt;"
    else if c == '>' then "&gt;"
    else if c == '"' then "&quot;"
    else if c == '\'' then "&#39;"
    else if c == '/' then "&#x2F;"
    else if c == '`' then "&#x60;"
    else if c == '=' then "&#x3D;"
    else [c]
  }

  function Escaped(s: string): string {
    if s == "" then "" else Escaped(s[..|s| - 1]) + EscapeChar(s[|s| - 1])
  }

  /** What a tag prints; lists, objects and null cannot be printed. A name that is not found
      prints nothing. */
  function TagText(v: Option<Value>, raw: bool): Option<string> {
    match v
    case None => Some("")
    case Some(True) => Some("true")
    case Some(False) => Some("false")
    case Some(Number(t)) => Some(t)
    case Some(String(s)) => Some(if raw then s else Escaped(s))
    case _ => None
  }

  /** The contexts a section is rendered with, one rendering for each. */
  function Entered(v: Option<Value>, inverted: bool): seq<Value> {
    if inverted then
      if v.None? || v.value.False? || v.value.Null? || v.value == List([]) then [Null] else []
    else
      match v
      case None => []
      case Some(False) => []
      case Some(Null) => []
      case Some(List(l)) => l
      case Some(x) => [x]
  }

  function Concat(a: Option<string>, b: Option<string>): Option<string> {
    if a.Some? && b.Some? then Some(a.value + b.value) else None
  }

  /** The text a list of items stands for, or nothing if some tag cannot be printed. */
  function Meaning(items: seq<Item>, stack: seq<Value>, place: Place): Option<string>
    requires stack != []
    decreases items, 0
  {
    if items == [] then Some("")
    else
      var node := items[0].node;
      Concat(Some(items[0].text),
        Concat(NodeMeaning(node, stack, place), Meaning(items[1..], stack, Behind(place, node))))
  }

  function NodeMeaning(node: Node, stack: seq<Value>, place: Place): Option<string>
    requires stack != []
    decreases node, 0
  {
    match node
    case Tag(name, raw) => TagText(Context(name, stack, Narrow(stack, place)), raw)
    case Note => Some("")
    case Section(name, inverted, items, tail) =>
      Each(node, Entered(Context(name, stack, false), inverted), stack, place)
  }

  /** A section once for each context. */
  function Each(node: Node, contexts: seq<Value>, stack: seq<Value>, place: Place): Option<string>
    requires stack != [] && node.Section?
    decreases node, 0, |contexts|
  {
    if contexts == [] then Some("")
    else
      var n := |contexts| - 1;
      Concat(Each(node, contexts[..n], stack, place),
        BodyMeaning(node.items, node.tail, stack + [contexts[n]], Within(place, node)))
  }

  function BodyMeaning(items: seq<Item>, tail: string, stack: seq<Value>, place: Place): Option<string>
    requires stack != []
    decreases items, 1
  {
    Concat(Meaning(items, stack, place), Some(tail))
  }

  // ---- flat code ----

  datatype ActionType = Ignore | TagAction | UnescapeTag | OpenBlock | CloseBlock | ElseBlock

  datatype Action = Action(t: ActionType, name: string, pos: nat)

  /** Text `i` is rendered before action `i`; the last action is not run. */
  datatype Code = Code(fragments: seq<string>, actions: seq<Action>)

  /** The number of actions of a list of items, which is also the number of texts. */
  function Count(items: seq<Item>): nat
    decreases items, 1
  {
    if items == [] then 0 else Count(items[..|items| - 1]) + NodeCount(items[|items| - 1].node)
  }

  function NodeCount(node: Node): (n: nat)
    ensures n > 0
    decreases node, 0
  {
    if node.Section? then 2 + Count(node.items) else 1
  }

  function Actions(items: seq<Item>, base: nat): (r: seq<Action>)
    ensures |r| == Count(items)
    decreases items, 1
  {
    if items == [] then []
    else
      var n := |items| - 1;
      Actions(items[..n], base) + NodeActions(items[n].node, base + Count(items[..n]))
  }

  /** A block opens with a jump to its end, and its end names the opening. */
  function NodeActions(node: Node, base: nat): (r: seq<Action>)
    ensures |r| == NodeCount(node)
    decreases node, 0
  {
    match node
    case Tag(name, raw) => [Action(if raw then UnescapeTag else TagAction, name, 0)]
    case Note => [Action(Ignore, "", 0)]
    case Section(name, inverted, items, tail) =>
      [Action(if inverted then ElseBlock else OpenBlock, name, base + 1 + Count(items))]
      + Actions(items, base + 1)
      + [Action(CloseBlock, name, base)]
  }

  function Texts(items: seq<Item>): (r: seq<string>)
    ensures |r| == Count(items)
    decreases items, 1
  {
    if items == [] then [] else Texts(items[..|items| - 1]) + ItemTexts(items[|items| - 1])
  }

  function ItemTexts(item: Item): (r: seq<string>)
    ensures |r| == NodeCount(item.node)
    decreases item, 0
  {
    [item.text] + if item.node.Section? then Texts(item.node.items) + [item.node.tail] else []
  }

  function Compiled(items: seq<Item>, tail: string): Code {
    Code(Texts(items) + [tail], Actions(items, 0) + [Action(Ignore, "", 0)])
  }

  lemma {:induction false} CountAppend(a: seq<Item>, b: seq<Item>)
    ensures Count(a + b) == Count(a) + Count(b)
    decreases |b|
  {
    if b == [] {
      assert a + b == a;
    } else {
      assert (a + b)[..|a + b| - 1] == a + b[..|b| - 1];
      CountAppend(a, b[..|b| - 1]);
    }
  }

  lemma {:induction false} ActionsAppend(a: seq<Item>, b: seq<Item>, base: nat)
    ensures Actions(a + b, base) == Actions(a, base) + Actions(b, base + Count(a))
    decreases |b|
  {
    hide NodeActions, NodeCount, Count;
    if b == [] {
      assert a + b == a;
    } else {
      var n := |b| - 1;
      var last := b[n].node;
      assert (a + b)[..|a + b| - 1] == a + b[..n];
      ActionsAppend(a, b[..n], base);
      CountAppend(a, b[..n]);
      assert Actions(b, base + Count(a)) ==
             Actions(b[..n], base + Count(a)) + NodeActions(last, base + Count(a) + Count(b[..n]));
    }
  }

  lemma {:induction false} TextsAppend(a: seq<Item>, b: seq<Item>)
    ensures Texts(a + b) == Texts(a) + Texts(b)
    decreases |b|
  {
    hide ItemTexts, NodeCount;
    if b == [] {
      assert a + b == a;
    } else {
      assert (a + b)[..|a + b| - 1] == a + b[..|b| - 1];
      TextsAppend(a, b[..|b| - 1]);
    }
  }

  lemma SnocItem(items: seq<Item>, item: Item, base: nat)
    ensures Actions(items + [item], base) == Actions(items, base) + NodeActions(item.node, base + Count(items))
    ensures Texts(items + [item]) == Texts(items) + ItemTexts(item)
    ensures Count(items + [item]) == Count(items) + NodeCount(item.node)
  {
    assert (items + [item])[..|items|] == items;
    hide NodeActions, ItemTexts, NodeCount;
  }

  /** The code of the first item comes first. */
  lemma CodeFirst(items: seq<Item>, base: nat)
    requires items != []
    ensures Count(items) == NodeCount(items[0].node) + Count(items[1..])
    ensures Actions(items, base) ==
            NodeActions(items[0].node, base) + Actions(items[1..], base + NodeCount(items[0].node))
    ensures Texts(items) == ItemTexts(items[0]) + Texts(items[1..])
  {
    hide NodeActions, NodeCount, ItemTexts;
    var one := [items[0]];
    assert items == one + items[1..];
    OneItem(items[0], base);
    hide Count, Actions, Texts;
    CountAppend(one, items[1..]);
    ActionsAppend(one, items[1..], base);
    TextsAppend(one, items[1..]);
  }

  lemma OneItem(item: Item, base: nat)
    ensures Count([item]) == NodeCount(item.node)
    ensures Actions([item], base) == NodeActions(item.node, base)
    ensures Texts([item]) == ItemTexts(item)
  {
    hide NodeActions, NodeCount, ItemTexts;
    assert [item][..0] == [];
    assert Count([]) == 0;
    assert Actions([item], base) == [] + NodeActions(item.node, base + 0);
    assert Texts([item]) == [] + ItemTexts(item);
  }
}
