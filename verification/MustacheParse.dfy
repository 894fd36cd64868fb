/** Compiling a template text: tags are found one by one, and a block's opening is patched
    with the position of its end when that is reached. */
module MustacheParse {
  import opened MustacheTemplate
  import opened MustacheTrim

  datatype Error = EmptyTag | UnmatchedTag | UnmatchedTriple | WrongPair | StrayEnd | Unsupported

  datatype Result<+T> = Ok(value: T) | Err(error: Error)

  // ---- finding tags ----

  /** The first place from `i` on where `c` stands twice, or the end of the text. */
  function FindPair(body: string, c: char, i: nat): (r: nat)
    requires i <= |body|
    ensures i <= r <= |body|
    ensures r < |body| ==> r + 1 < |body| && body[r] == c && body[r + 1] == c
    decreases |body| - i
  {
    if i + 1 >= |body| then |body|
    else if body[i] == c && body[i + 1] == c then i
    else FindPair(body, c, i + 1)
  }

  function SkipSpaces(body: string, i: nat, end: nat): (r: nat)
    requires i <= end < |body| && body[end] != ' '
    ensures i <= r <= end
    decreases end - i
  {
    if body[i] == ' ' then SkipSpaces(body, i + 1, end) else i
  }

  function TrimEnd(body: string, begin: nat, end: nat): (r: nat)
    requires 0 < begin <= end <= |body| && body[begin - 1] != ' '
    ensures begin <= r <= end
    decreases end - begin
  {
    if body[end - 1] == ' ' then TrimEnd(body, begin, end - 1) else end
  }

  /** The text of a tag without the spaces around it. A tag of spaces only has an end before
      its start, and its name then is all the rest of the template. */
  function Name(body: string, begin: nat, end: nat): string
    requires 0 < begin <= end < |body| && body[begin - 1] != ' ' && body[end] != ' '
  {
    var s, e := SkipSpaces(body, begin, end), TrimEnd(body, begin, end);
    if s <= e then body[s..e] else body[s..]
  }

  datatype Mark = Print(name: string, raw: bool) | Comment | Begin(name: string, inverted: bool) | End(name: string)

  datatype Lexed = NoTag | BadTag(error: Error) | Piece(text: string, mark: Mark, next: nat)

  /** The next tag from `current` on, with the text before it and the place after it. */
  function LexAt(body: string, current: nat): (r: Lexed)
    requires current <= |body|
    ensures r.Piece? ==> current < r.next <= |body|
  {
    var open := FindPair(body, '{', current);
    if open == |body| then NoTag
    else
      var idx := open + 2;
      var end := FindPair(body, '}', idx);
      if end == |body| then BadTag(UnmatchedTag)
      else if end == idx then BadTag(EmptyTag)
      else
        var text, next := body[current..open], end + 2;
        var c := body[idx];
        if c == '#' then Piece(text, Begin(Name(body, idx + 1, end), false), next)
        else if c == '/' then Piece(text, End(Name(body, idx + 1, end)), next)
        else if c == '^' then Piece(text, Begin(Name(body, idx + 1, end), true), next)
        else if c == '!' then Piece(text, Comment, next)
        else if c == '{' then
          if end + 2 < |body| && body[end + 2] == '}' then Piece(text, Print(Name(body, idx + 1, end), true), next + 1)
          else BadTag(UnmatchedTriple)
        else if c == '&' then Piece(text, Print(Name(body, idx + 1, end), true), next)
        else if c == '>' || c == '=' then BadTag(Unsupported)
        else Piece(text, Print(Name(body, idx, end), false), next)
  }

  // ---- blocks ----

  /** A block that is open: what stands before it, and the items before that. */
  datatype Frame = Frame(block: string, inverted: bool, text: string, before: seq<Item>)

  datatype State = State(frames: seq<Frame>, items: seq<Item>)

  const EMPTY := State([], [])

  function Step(st: State, text: string, mark: Mark): Result<State> {
    match mark
    case Print(name, raw) => Ok(st.(items := st.items + [Item(text, Tag(name, raw))]))
    case Comment => Ok(st.(items := st.items + [Item(text, Note)]))
    case Begin(name, inverted) => Ok(State(st.frames + [Frame(name, inverted, text, st.items)], []))
    case End(name) =>
      if st.frames == [] then Err(StrayEnd)
      else
        var n := |st.frames| - 1;
        var f := st.frames[n];
        if f.block != name then Err(WrongPair)
        else Ok(State(st.frames[..n], f.before + [Item(f.text, Section(f.block, f.inverted, st.items, text))]))
  }

  /** What a template text stands for: its items and last text, below the blocks that are
      still open at its end. */
  function ParseFrom(body: string, current: nat, st: State): Result<(State, string)>
    requires current <= |body|
    decreases |body| - current
  {
    match LexAt(body, current)
    case NoTag => Ok((st, body[current..]))
    case BadTag(e) => Err(e)
    case Piece(text, mark, next) =>
      match Step(st, text, mark)
      case Err(e) => Err(e)
      case Ok(st') => ParseFrom(body, next, st')
  }

  // ---- the code of a state ----

  function OpenAction(f: Frame): Action {
    Action(if f.inverted then ElseBlock else OpenBlock, f.block, 0)
  }

  function FrameActions(fs: seq<Frame>): seq<Action> {
    if fs == [] then []
    else
      var n := |fs| - 1;
      var outer := FrameActions(fs[..n]);
      outer + Actions(fs[n].before, |outer|) + [OpenAction(fs[n])]
  }

  function FrameTexts(fs: seq<Frame>): (r: seq<string>)
    ensures |r| == |FrameActions(fs)|
  {
    if fs == [] then [] else FrameTexts(fs[..|fs| - 1]) + Texts(fs[|fs| - 1].before) + [fs[|fs| - 1].text]
  }

  /** Where the open blocks begin. */
  function Opens(fs: seq<Frame>): (r: seq<nat>)
    ensures |r| == |fs|
  {
    if fs == [] then [] else Opens(fs[..|fs| - 1]) + [|FrameActions(fs)| - 1]
  }

  function StateActions(st: State): seq<Action> {
    FrameActions(st.frames) + Actions(st.items, |FrameActions(st.frames)|)
  }

  function StateTexts(st: State): (r: seq<string>)
    ensures |r| == |StateActions(st)|
  {
    FrameTexts(st.frames) + Texts(st.items)
  }

  lemma SnocFrame(fs: seq<Frame>, f: Frame)
    ensures FrameActions(fs + [f]) == FrameActions(fs) + Actions(f.before, |FrameActions(fs)|) + [OpenAction(f)]
    ensures Opens(fs + [f]) == Opens(fs) + [|FrameActions(fs)| + Count(f.before)]
  {
    hide Actions, Count, OpenAction;
    assert (fs + [f])[..|fs|] == fs;
  }

  lemma SnocFrameTexts(fs: seq<Frame>, f: Frame)
    ensures FrameTexts(fs + [f]) == FrameTexts(fs) + Texts(f.before) + [f.text]
  {
    hide Texts, FrameActions;
    assert (fs + [f])[..|fs|] == fs;
  }

  /** A simple tag adds one text and one action. */
  lemma StepSimple(st: State, item: Item)
    requires !item.node.Section?
    ensures var st' := st.(items := st.items + [item]);
            && StateActions(st') == StateActions(st) + [NodeActions(item.node, 0)[0]]
            && StateTexts(st') == StateTexts(st) + [item.text]
  {
    var base := |FrameActions(st.frames)|;
    SnocItem(st.items, item, base);
    assert NodeActions(item.node, base + Count(st.items)) == [NodeActions(item.node, 0)[0]];
    assert ItemTexts(item) == [item.text];
    hide Actions, Texts, NodeActions, ItemTexts, FrameActions, FrameTexts;
  }

  /** Opening a block adds one text and one action, whose jump is not known yet. */
  lemma StepBegin(st: State, text: string, name: string, inverted: bool)
    ensures var f := Frame(name, inverted, text, st.items);
            var st' := State(st.frames + [f], []);
            && StateActions(st') == StateActions(st) + [OpenAction(f)]
            && StateTexts(st') == StateTexts(st) + [text]
            && Opens(st'.frames) == Opens(st.frames) + [|StateActions(st)|]
  {
    var f := Frame(name, inverted, text, st.items);
    SnocFrame(st.frames, f);
    SnocFrameTexts(st.frames, f);
    assert Actions([], |FrameActions(st.frames + [f])|) == [] && Texts([]) == [];
    hide Actions, Texts, FrameActions, FrameTexts, Opens, OpenAction;
  }

  /** Overwriting the element after `a + b`. */
  lemma Patch<T>(a: seq<T>, b: seq<T>, x: T, c: seq<T>, y: T, z: T)
    ensures var all := a + b + [x] + c;
            var k := |a| + |b|;
            && all[k] == x
            && all[k := y] + [z] == a + (b + ([y] + (c + [z])))
  {
  }

  /** The block that an ending makes of the innermost frame. */
  function Block(st: State, text: string): Item
    requires st.frames != []
  {
    var f := st.frames[|st.frames| - 1];
    Item(f.text, Section(f.block, f.inverted, st.items, text))
  }

  function Ended(st: State, text: string): State
    requires st.frames != []
  {
    var n := |st.frames| - 1;
    State(st.frames[..n], st.frames[n].before + [Block(st, text)])
  }

  lemma BlockCode(item: Item, at: nat)
    requires item.node.Section?
    ensures var node := item.node;
            && NodeActions(node, at) ==
               [Action(if node.inverted then ElseBlock else OpenBlock, node.block, at + 1 + Count(node.items))]
               + (Actions(node.items, at + 1) + [Action(CloseBlock, node.block, at)])
            && ItemTexts(item) == [item.text] + (Texts(node.items) + [node.tail])
  {
    hide Actions, Texts, Count;
  }

  /** Closing a block sets the jump of its opening and adds the closing action. */
  lemma StepEnd(st: State, text: string)
    requires st.frames != []
    ensures var n := |st.frames| - 1;
            var front, acts := Opens(st.frames)[n], StateActions(st);
            && front < |acts| && acts[front] == OpenAction(st.frames[n])
            && StateActions(Ended(st, text)) ==
               acts[front := acts[front].(pos := |acts|)] + [Action(CloseBlock, st.frames[n].block, front)]
            && Opens(Ended(st, text).frames) == Opens(st.frames)[..n]
  {
    hide Actions, NodeActions, ItemTexts, Texts, FrameActions, FrameTexts, Opens, Count;
    var n := |st.frames| - 1;
    var f := st.frames[n];
    var fs := st.frames[..n];
    assert st.frames == fs + [f];
    SnocFrame(fs, f);
    var outer := FrameActions(fs);
    var before := Actions(f.before, |outer|);
    var front := |outer| + Count(f.before);
    SnocItem(f.before, Block(st, text), |outer|);
    BlockCode(Block(st, text), front);
    var inner := Actions(st.items, front + 1);
    var close := Action(CloseBlock, f.block, front);
    Patch(outer, before, OpenAction(f), inner, OpenAction(f).(pos := front + 1 + Count(st.items)), close);
  }

  lemma StepEndTexts(st: State, text: string)
    requires st.frames != []
    ensures StateTexts(Ended(st, text)) == StateTexts(st) + [text]
  {
    hide Actions, NodeActions, ItemTexts, Texts, FrameActions, FrameTexts, Opens, Count;
    var n := |st.frames| - 1;
    assert st.frames == st.frames[..n] + [st.frames[n]];
    SnocFrameTexts(st.frames[..n], st.frames[n]);
    SnocItem(st.frames[n].before, Block(st, text), 0);
    BlockCode(Block(st, text), 0);
    var a, b, c := FrameTexts(st.frames[..n]), Texts(st.frames[n].before), Texts(st.items);
    assert a + b + [st.frames[n].text] + c + [text] == a + (b + ([st.frames[n].text] + (c + [text])));
  }

  function StateCode(st: State, tail: string): Code {
    Code(StateTexts(st) + [tail], StateActions(st) + [Action(Ignore, "", 0)])
  }

  /** Compiles a template text. In the end the lines of standing tags are taken out. */
  method Parse(body: string) returns (r: Result<Code>)
    ensures match ParseFrom(body, 0, EMPTY)
            case Err(e) => r == Err(e)
            case Ok((st, tail)) =>
              var code := StateCode(st, tail);
              r == Ok(code.(fragments := Trimmed(code)))
  {
    hide Trimmed, LexAt, StateActions, StateTexts, Opens;
    var fragments: seq<string>, actions: seq<Action>, blocks: seq<nat> := [], [], [];
    ghost var st := EMPTY;
    EmptyState();
    var current := 0;
    while true
      invariant current <= |body| && ParseFrom(body, current, st) == ParseFrom(body, 0, EMPTY)
      invariant fragments == StateTexts(st) && actions == StateActions(st) && blocks == Opens(st.frames)
      decreases |body| - current
    {
      match LexAt(body, current) {
        case NoTag =>
          var code := Code(fragments + [body[current..]], actions + [Action(Ignore, "", 0)]);
          fragments := RemoveStandalones(code);
          return Ok(Code(fragments, code.actions));
        case BadTag(e) => return Err(e);
        case Piece(text, mark, next) =>
          fragments := fragments + [text];
          current := next;
          match mark {
            case Print(name, raw) =>
              StepSimple(st, Item(text, Tag(name, raw)));
              actions := actions + [Action(if raw then UnescapeTag else TagAction, name, 0)];
            case Comment =>
              StepSimple(st, Item(text, Note));
              actions := actions + [Action(Ignore, "", 0)];
            case Begin(name, inverted) =>
              StepBegin(st, text, name, inverted);
              blocks := blocks + [|actions|];
              actions := actions + [Action(if inverted then ElseBlock else OpenBlock, name, 0)];
            case End(name) =>
              if blocks == [] { return Err(StrayEnd); }
              var matched := blocks[|blocks| - 1];
              StepEnd(st, text);
              StepEndTexts(st, text);
              if actions[matched].name != name { return Err(WrongPair); }
              actions := actions[matched := actions[matched].(pos := |actions|)];
              actions := actions + [Action(CloseBlock, name, matched)];
              blocks := blocks[..|blocks| - 1];
          }
          st := Step(st, text, mark).value;
      }
    }
  }

  lemma EmptyState()
    ensures StateTexts(EMPTY) == [] && StateActions(EMPTY) == [] && Opens([]) == []
  {
  }

  /** A text whose blocks are all closed is compiled to the code of a tree. */
  lemma ClosedIsTree(items: seq<Item>, tail: string)
    ensures StateCode(State([], items), tail) == Compiled(items, tail)
  {
    hide Actions, Texts;
    assert FrameActions([]) == [] && FrameTexts([]) == [];
    assert [] + Actions(items, 0) == Actions(items, 0) && [] + Texts(items) == Texts(items);
  }
}
