/** The template tokenizer (`parseHTML`) together with the element stack that `parse` keeps in
    its callbacks. What the regular expressions match is given, for every position. */
module ParseHtml {
  datatype Option<+T> = None | Some(value: T)

  /** What the regular expressions and searches find from a position on, as positions and
      lengths; a length of zero means no match. */
  datatype Lexer = Lexer(
    length: nat,
    openingBracket: nat -> Option<nat>,
    isComment: nat -> bool,
    commentEnd: nat -> Option<nat>,
    isConditional: nat -> bool,
    conditionalEnd: nat -> Option<nat>,
    doctype: nat -> nat,
    endTag: nat -> Option<(nat, string)>,
    startTagOpen: nat -> Option<(nat, string)>,
    startTagClose: nat -> Option<(nat, bool)>,
    attribute: nat -> nat,
    stackedEnd: (nat, string) -> nat,
    stackedText: (nat, string) -> nat,
    newline: nat -> bool)
  {
    function OpeningBracket(p: nat): Option<nat> { openingBracket(p) }
    function IsComment(p: nat): bool { isComment(p) }
    function CommentEnd(p: nat): Option<nat> { commentEnd(p) }
    function IsConditional(p: nat): bool { isConditional(p) }
    function ConditionalEnd(p: nat): Option<nat> { conditionalEnd(p) }
    function Doctype(p: nat): nat { doctype(p) }
    function EndTag(p: nat): Option<(nat, string)> { endTag(p) }
    function StartTagOpen(p: nat): Option<(nat, string)> { startTagOpen(p) }
    function StartTagClose(p: nat): Option<(nat, bool)> { startTagClose(p) }
    function Attribute(p: nat): nat { attribute(p) }
    function StackedEnd(p: nat, tag: string): nat { stackedEnd(p, tag) }
    function StackedText(p: nat, tag: string): nat { stackedText(p, tag) }
    function Newline(p: nat): bool { newline(p) }
  }

  ghost predicate Sane(l: Lexer) {
    forall p: nat ::
      (l.OpeningBracket(p).Some? ==> p <= l.OpeningBracket(p).value < l.length) &&
      (l.CommentEnd(p).Some? ==> p <= l.CommentEnd(p).value <= l.length - 3) &&
      (l.ConditionalEnd(p).Some? ==> p <= l.ConditionalEnd(p).value <= l.length - 2) &&
      (l.Doctype(p) > 0 ==> p + l.Doctype(p) <= l.length) &&
      (l.EndTag(p).Some? ==> 0 < l.EndTag(p).value.0 <= l.length - p) &&
      (l.StartTagOpen(p).Some? ==> 0 < l.StartTagOpen(p).value.0 <= l.length - p) &&
      (l.StartTagClose(p).Some? ==> 0 < l.StartTagClose(p).value.0 <= l.length - p) &&
      (l.Attribute(p) > 0 ==> p + l.Attribute(p) <= l.length) &&
      (l.Newline(p) ==> p < l.length)
  }

  ghost predicate SaneStacked(l: Lexer) {
    forall p: nat, tag ::
      (l.StackedEnd(p, tag) > 0 ==> p + l.StackedEnd(p, tag) <= l.length) && l.StackedText(p, tag) <= l.StackedEnd(p, tag)
  }

  datatype Options = Options(
    expectHtml: bool,
    keepComments: bool,
    isUnary: string -> bool,
    canBeLeftOpen: string -> bool,
    isNonPhrasing: string -> bool,
    isPlainText: string -> bool,
    ignoresNewline: string -> bool,
    lower: string -> string)

  /** The calls that the tokenizer makes. */
  datatype Event =
    | Start(tag: string, unary: bool)
    | End(tag: string)
    | Chars(from: nat, to: nat)
    | Comment(from: nat, to: nat)

  /** The elements that are open after some calls; none if the calls are not nested. */
  function OpenAfter(events: seq<Event>): Option<seq<string>> {
    if events == [] then Some([])
    else
      match OpenAfter(events[..|events| - 1])
      case None => None
      case Some(open) =>
        match events[|events| - 1]
        case Start(tag, unary) => Some(if unary then open else open + [tag])
        case End(tag) => if open != [] && open[|open| - 1] == tag then Some(open[..|open| - 1]) else None
        case _ => Some(open)
  }

  /** Start and end calls pair up and nest. */
  predicate Balanced(events: seq<Event>) {
    OpenAfter(events) == Some([])
  }

  /** Comments come only while some element is open. */
  predicate CommentsInside(events: seq<Event>) {
    forall k | 0 <= k < |events| :: events[k].Comment? ==> OpenAfter(events[..k]) != Some([])
  }

  lemma OpenOneMore(events: seq<Event>, e: Event)
    ensures CommentsInside(events + [e]) == (CommentsInside(events) && (e.Comment? ==> OpenAfter(events) != Some([])))
    ensures OpenAfter(events + [e]) ==
            match OpenAfter(events)
            case None => None
            case Some(open) =>
              match e
              case Start(tag, unary) => Some(if unary then open else open + [tag])
              case End(tag) => if open != [] && open[|open| - 1] == tag then Some(open[..|open| - 1]) else None
              case _ => Some(open)
  {
    var more := events + [e];
    assert more[..|events|] == events;
    assert forall k | 0 <= k < |events| :: more[..k] == events[..k] && more[k] == events[k];
    if CommentsInside(more) {
      forall k | 0 <= k < |events| ensures events[k].Comment? ==> OpenAfter(events[..k]) != Some([]) {
        assert more[k].Comment? ==> OpenAfter(more[..k]) != Some([]);
      }
      assert more[|events|].Comment? ==> OpenAfter(more[..|events|]) != Some([]);
    }
  }

  /** A call never closes an element that is not open. */
  lemma {:induction false} PrefixesNest(events: seq<Event>, k: nat)
    requires OpenAfter(events).Some? && k <= |events|
    ensures OpenAfter(events[..k]).Some?
    decreases |events| - k
  {
    if k == |events| {
      assert events[..k] == events;
    } else {
      PrefixesNest(events, k + 1);
      assert events[..k + 1] == events[..k] + [events[k]];
      OpenOneMore(events[..k], events[k]);
    }
  }

  /** An entry of the tokenizer's stack. */
  datatype Open = Open(tag: string, lowerCased: string)

  function Tags(stack: seq<Open>): seq<string> {
    seq(|stack|, i requires 0 <= i < |stack| => stack[i].tag)
  }

  // ------------------------------------------------------------ where comments stand

  function LastTag(stack: seq<Open>): Option<string> {
    if stack == [] then None else Some(stack[|stack| - 1].tag)
  }

  /** The closest open element with this name, or -1. */
  function ClosestOpen(stack: seq<Open>, lowerCased: string): (at: int)
    ensures -1 <= at < |stack|
  {
    if stack == [] then -1
    else if stack[|stack| - 1].lowerCased == lowerCased then |stack| - 1
    else ClosestOpen(stack[..|stack| - 1], lowerCased)
  }

  /** The open elements after an end tag. */
  function Closed(o: Options, stack: seq<Open>, tagName: string): seq<Open> {
    var at := ClosestOpen(stack, o.lower(tagName));
    if at >= 0 then stack[..at] else stack
  }

  /** In HTML a paragraph ends before an element that cannot stand in it. */
  predicate EndsParagraph(o: Options, stack: seq<Open>, tagName: string) {
    o.expectHtml && LastTag(stack) == Some("p") && o.isNonPhrasing(tagName)
  }

  /** An element that may be left open ends before the next of its kind. */
  predicate EndsSame(o: Options, stack: seq<Open>, tagName: string) {
    o.expectHtml && o.canBeLeftOpen(tagName) && LastTag(stack) == Some(tagName)
  }

  function Outside(o: Options, stack: seq<Open>, tagName: string): seq<Open> {
    if EndsParagraph(o, stack, tagName) then Closed(o, stack, "p") else stack
  }

  function Around(o: Options, stack: seq<Open>, tagName: string): seq<Open> {
    if EndsSame(o, stack, tagName) then Closed(o, stack, tagName) else stack
  }

  /** The open elements after a start tag. */
  function Opened(o: Options, stack: seq<Open>, tagName: string, unarySlash: bool): seq<Open> {
    Around(o, Outside(o, stack, tagName), tagName) +
    if o.isUnary(tagName) || unarySlash then [] else [Open(tagName, o.lower(tagName))]
  }

  ghost function AttributesEnd(l: Lexer, p: nat): (end: nat)
    requires Sane(l) && p <= l.length
    ensures p <= end <= l.length
    decreases l.length - p
  {
    if l.StartTagClose(p).None? && l.Attribute(p) > 0 then AttributesEnd(l, p + l.Attribute(p)) else p
  }

  lemma AttributesFrom(l: Lexer, p: nat)
    requires Sane(l) && p <= l.length
    ensures if l.StartTagClose(p).None? && l.Attribute(p) > 0
            then p + l.Attribute(p) <= l.length && AttributesEnd(l, p) == AttributesEnd(l, p + l.Attribute(p))
            else AttributesEnd(l, p) == p
  {
  }

  datatype StartTag = StartTag(name: string, slash: bool)

  /** How far a start tag at `p` is read, complete or not. */
  ghost function StartTagEnd(l: Lexer, p: nat): (end: nat)
    requires Sane(l) && p <= l.length
    ensures p <= end <= l.length && (StartTagAt(l, p).Some? ==> p < end)
  {
    if l.StartTagOpen(p).None? then p
    else
      var end := AttributesEnd(l, p + l.StartTagOpen(p).value.0);
      if l.StartTagClose(end).None? then end else end + l.StartTagClose(end).value.0
  }

  /** The start tag at `p`, if it is complete. */
  ghost function StartTagAt(l: Lexer, p: nat): Option<StartTag>
    requires Sane(l) && p <= l.length
  {
    if l.StartTagOpen(p).None? then None
    else
      var end := AttributesEnd(l, p + l.StartTagOpen(p).value.0);
      if l.StartTagClose(end).None? then None
      else Some(StartTag(l.StartTagOpen(p).value.1, l.StartTagClose(end).value.1))
  }

  lemma StartTagCases(l: Lexer, p: nat)
    requires Sane(l) && p <= l.length
    ensures l.StartTagOpen(p).None? ==> StartTagAt(l, p) == None && StartTagEnd(l, p) == p
    ensures l.StartTagOpen(p).Some? ==>
      var from := p + l.StartTagOpen(p).value.0;
      from <= l.length &&
      var end := AttributesEnd(l, from);
      match l.StartTagClose(end)
      case None => StartTagAt(l, p) == None && StartTagEnd(l, p) == end
      case Some(close) =>
        StartTagAt(l, p) == Some(StartTag(l.StartTagOpen(p).value.1, close.1)) && StartTagEnd(l, p) == end + close.0
  {
  }

  predicate IsTagLike(l: Lexer, p: nat) {
    l.EndTag(p).Some? || l.StartTagOpen(p).Some? || l.IsComment(p) || l.IsConditional(p)
  }

  ghost function TextEnd(l: Lexer, p: nat): (end: nat)
    requires Sane(l) && p <= l.length
    ensures p <= end <= l.length
    decreases l.length - p
  {
    if !IsTagLike(l, p) && l.OpeningBracket(p + 1).Some? then TextEnd(l, l.OpeningBracket(p + 1).value) else p
  }

  /** Text goes on to something that looks like markup, or past the last bracket, and passes
      nothing that looks like markup. */
  lemma {:induction false} TextEndsAt(l: Lexer, p: nat)
    requires Sane(l) && p <= l.length
    ensures var end := TextEnd(l, p);
            (l.EndTag(end).Some? || l.StartTagOpen(end).Some? || l.IsComment(end) || l.IsConditional(end) ||
             l.OpeningBracket(end + 1).None?) &&
            (l.EndTag(p).Some? || l.StartTagOpen(p).Some? || l.IsComment(p) || l.IsConditional(p) ==> end == p)
    ensures !IsTagLike(l, p) && l.OpeningBracket(p + 1).Some? ==> TextEnd(l, p) >= l.OpeningBracket(p + 1).value
    decreases l.length - p
  {
    if !IsTagLike(l, p) && l.OpeningBracket(p + 1).Some? {
      TextEndsAt(l, l.OpeningBracket(p + 1).value);
    }
  }

  /** Attributes are read as long as there are any and the tag is not closed. */
  lemma {:induction false} AttributesAreRead(l: Lexer, p: nat)
    requires Sane(l) && p <= l.length
    ensures var end := AttributesEnd(l, p);
            (l.StartTagClose(end).Some? || l.Attribute(end) == 0) && (l.StartTagClose(p).Some? ==> end == p)
    decreases l.length - p
  {
    if l.StartTagClose(p).None? && l.Attribute(p) > 0 {
      AttributesAreRead(l, p + l.Attribute(p));
    }
  }

  /** One turn of the tokenizer: whether it took some markup, where it ends, the elements that
      are open then, and whether the markup was a comment. */
  datatype Turn = Turn(taken: bool, pos: nat, stack: seq<Open>, comment: bool)

  ghost function MarkupAt(l: Lexer, o: Options, p: nat, stack: seq<Open>): (t: Turn)
    requires Sane(l) && p < l.length
    ensures p <= t.pos <= l.length && (t.taken ==> p < t.pos) && (t.comment ==> t.taken) && (!t.taken ==> t.stack == stack)
  {
    if l.IsComment(p) && l.CommentEnd(p).Some? then Turn(true, l.CommentEnd(p).value + 3, stack, true)
    else if l.IsConditional(p) && l.ConditionalEnd(p).Some? then Turn(true, l.ConditionalEnd(p).value + 2, stack, false)
    else if l.Doctype(p) > 0 then Turn(true, p + l.Doctype(p), stack, false)
    else if l.EndTag(p).Some? then
      Turn(true, p + l.EndTag(p).value.0, Closed(o, stack, l.EndTag(p).value.1), false)
    else
      var end := StartTagEnd(l, p);
      match StartTagAt(l, p)
      case None => Turn(false, end, stack, false)
      case Some(tag) =>
        var inside := Opened(o, stack, tag.name, tag.slash);
        var skipped := LastTag(inside).Some? && o.ignoresNewline(LastTag(inside).value) && l.Newline(end);
        Turn(true, if skipped then end + 1 else end, inside, false)
  }

  ghost function TurnAt(l: Lexer, o: Options, p: nat, stack: seq<Open>): (t: Turn)
    requires Sane(l) && SaneStacked(l) && p < l.length
    ensures p <= t.pos <= l.length && (t.taken ==> p < t.pos)
  {
    if LastTag(stack).None? || !o.isPlainText(LastTag(stack).value) then
      var bracket := l.OpeningBracket(p);
      if bracket == Some(p) then
        var markup := MarkupAt(l, o, p, stack);
        if markup.taken then markup else Turn(false, TextEnd(l, markup.pos), stack, false)
      else Turn(false, if bracket.Some? then TextEnd(l, bracket.value) else l.length, stack, false)
    else
      var stackedTag := o.lower(LastTag(stack).value);
      Turn(false, p + l.StackedEnd(p, stackedTag), Closed(o, stack, stackedTag), false)
  }

  /** From `p` on the tokenizer comes to a comment while no element is open. Nothing here asks
      whether comments are kept. */
  ghost predicate StrayComment(l: Lexer, o: Options, p: nat, stack: seq<Open>)
    requires Sane(l) && SaneStacked(l)
    decreases l.length - p
  {
    p < l.length &&
    var t := TurnAt(l, o, p, stack);
    (t.comment && stack == []) || (t.pos > p && StrayComment(l, o, t.pos, t.stack))
  }

  // ------------------------------------------------------------ the calls that the markup asks for

  /** The ends of the open elements from the innermost to the one at `at`. */
  function EndsTo(stack: seq<Open>, at: nat): seq<Event>
    requires at <= |stack|
  {
    if |stack| == at then [] else [End(stack[|stack| - 1].tag)] + EndsTo(stack[..|stack| - 1], at)
  }

  lemma InnermostEnds(stack: seq<Open>, i: nat, at: nat)
    requires at <= i < |stack|
    ensures EndsTo(stack[..i + 1], at) == [End(stack[i].tag)] + EndsTo(stack[..i], at)
  {
    assert stack[..i + 1][..i] == stack[..i];
  }

  lemma EndsToHere(stack: seq<Open>, at: nat)
    requires at <= |stack|
    ensures EndsTo(stack[..at], at) == []
  {
  }

  /** An end tag ends what it closes; one that closes nothing is a line break or an empty
      paragraph if it is `</br>` or `</p>`. */
  function ClosedCalls(o: Options, stack: seq<Open>, tagName: string): seq<Event> {
    var at := ClosestOpen(stack, o.lower(tagName));
    if at >= 0 then EndsTo(stack, at)
    else if o.lower(tagName) == "br" then [Start(tagName, true)]
    else if o.lower(tagName) == "p" then [Start(tagName, false), End(tagName)]
    else []
  }

  function OutsideCalls(o: Options, stack: seq<Open>, tagName: string): seq<Event> {
    if EndsParagraph(o, stack, tagName) then ClosedCalls(o, stack, "p") else []
  }

  function AroundCalls(o: Options, stack: seq<Open>, tagName: string): seq<Event> {
    if EndsSame(o, stack, tagName) then ClosedCalls(o, stack, tagName) else []
  }

  /** A start tag ends what it implies to be ended and starts its element. */
  function OpenedCalls(o: Options, stack: seq<Open>, tagName: string, unarySlash: bool): seq<Event> {
    OutsideCalls(o, stack, tagName) + AroundCalls(o, Outside(o, stack, tagName), tagName) +
    [Start(tagName, o.isUnary(tagName) || unarySlash)]
  }

  function TextCalls(from: nat, to: nat): seq<Event> {
    if from < to then [Chars(from, to)] else []
  }

  ghost function MarkupCalls(l: Lexer, o: Options, p: nat, stack: seq<Open>): seq<Event>
    requires Sane(l) && p < l.length
  {
    if l.IsComment(p) && l.CommentEnd(p).Some? then
      if o.keepComments then [Comment(p + 4, l.CommentEnd(p).value)] else []
    else if l.IsConditional(p) && l.ConditionalEnd(p).Some? then []
    else if l.Doctype(p) > 0 then []
    else if l.EndTag(p).Some? then ClosedCalls(o, stack, l.EndTag(p).value.1)
    else
      match StartTagAt(l, p)
      case None => []
      case Some(tag) => OpenedCalls(o, stack, tag.name, tag.slash)
  }

  lemma MarkupCases(l: Lexer, o: Options, p: nat, stack: seq<Open>)
    requires Sane(l) && p < l.length
    ensures var t, calls := MarkupAt(l, o, p, stack), MarkupCalls(l, o, p, stack);
            if l.IsComment(p) && l.CommentEnd(p).Some? then
              t == Turn(true, l.CommentEnd(p).value + 3, stack, true) &&
              calls == if o.keepComments then [Comment(p + 4, l.CommentEnd(p).value)] else []
            else if l.IsConditional(p) && l.ConditionalEnd(p).Some? then
              t == Turn(true, l.ConditionalEnd(p).value + 2, stack, false) && calls == []
            else if l.Doctype(p) > 0 then t == Turn(true, p + l.Doctype(p), stack, false) && calls == []
            else if l.EndTag(p).Some? then
              t == Turn(true, p + l.EndTag(p).value.0, Closed(o, stack, l.EndTag(p).value.1), false) &&
              calls == ClosedCalls(o, stack, l.EndTag(p).value.1)
            else if StartTagAt(l, p).None? then t == Turn(false, StartTagEnd(l, p), stack, false) && calls == []
            else
              var tag, end := StartTagAt(l, p).value, StartTagEnd(l, p);
              var inside := Opened(o, stack, tag.name, tag.slash);
              calls == OpenedCalls(o, stack, tag.name, tag.slash) &&
              t == Turn(true, if LastTag(inside).Some? && o.ignoresNewline(LastTag(inside).value) && l.Newline(end)
                              then end + 1 else end, inside, false)
  {
    hide StartTagAt, StartTagEnd, Opened, OpenedCalls, Closed, ClosedCalls;
  }

  /** The text inside a plain-text element, without a newline that is to be ignored. */
  ghost function PlainCalls(l: Lexer, o: Options, p: nat, stack: seq<Open>, stackedTag: string): seq<Event> {
    var from := if o.ignoresNewline(stackedTag) && l.StackedText(p, stackedTag) > 0 && l.Newline(p) then p + 1 else p;
    (if l.StackedEnd(p, stackedTag) > 0 then [Chars(from, p + l.StackedText(p, stackedTag))] else []) +
    ClosedCalls(o, stack, stackedTag)
  }

  /** The end of a plain-text element: its text, if it has an end tag, and its end. */
  lemma PlainExactly(l: Lexer, o: Options, p: nat, stack: seq<Open>)
    requires LastTag(stack).Some? && NamesAgree(o, stack)
    requires o.lower(o.lower(LastTag(stack).value)) == o.lower(LastTag(stack).value)
    ensures var tag := o.lower(LastTag(stack).value);
            var from := if o.ignoresNewline(tag) && l.StackedText(p, tag) > 0 && l.Newline(p) then p + 1 else p;
            Closed(o, stack, tag) == stack[..|stack| - 1] &&
            PlainCalls(l, o, p, stack, tag) ==
              (if l.StackedEnd(p, tag) > 0 then [Chars(from, p + l.StackedText(p, tag))] else []) + [End(LastTag(stack).value)]
  {
    var tag := o.lower(LastTag(stack).value);
    assert stack[|stack| - 1] in stack;
    ClosestFinds(stack, o.lower(tag));
    assert EndsTo(stack, |stack| - 1) == [End(LastTag(stack).value)] + EndsTo(stack[..|stack| - 1], |stack| - 1);
  }

  ghost function TurnCalls(l: Lexer, o: Options, p: nat, stack: seq<Open>): seq<Event>
    requires Sane(l) && SaneStacked(l) && p < l.length
  {
    if LastTag(stack).None? || !o.isPlainText(LastTag(stack).value) then
      var bracket := l.OpeningBracket(p);
      if bracket == Some(p) then
        var markup := MarkupAt(l, o, p, stack);
        MarkupCalls(l, o, p, stack) +
        if markup.taken then [] else TextCalls(markup.pos, TextEnd(l, markup.pos))
      else TextCalls(p, if bracket.Some? then TextEnd(l, bracket.value) else l.length)
    else PlainCalls(l, o, p, stack, o.lower(LastTag(stack).value))
  }

  /** One turn in full. */
  lemma TurnCases(l: Lexer, o: Options, p: nat, stack: seq<Open>)
    requires Sane(l) && SaneStacked(l) && p < l.length
    ensures var t, calls := TurnAt(l, o, p, stack), TurnCalls(l, o, p, stack);
            var markup, marked := MarkupAt(l, o, p, stack), MarkupCalls(l, o, p, stack);
            if LastTag(stack).Some? && o.isPlainText(LastTag(stack).value) then
              var tag := o.lower(LastTag(stack).value);
              t == Turn(false, p + l.StackedEnd(p, tag), Closed(o, stack, tag), false) && calls == PlainCalls(l, o, p, stack, tag)
            else if l.OpeningBracket(p) == Some(p) && markup.taken then t == markup && calls == marked
            else
              var from := if l.OpeningBracket(p) == Some(p) then markup.pos else p;
              var to := if l.OpeningBracket(p) == Some(p) then TextEnd(l, markup.pos)
                        else if l.OpeningBracket(p).Some? then TextEnd(l, l.OpeningBracket(p).value) else l.length;
              t == Turn(false, to, stack, false) && calls == if from < to then [Chars(from, to)] else []
  {
    MarkupCases(l, o, p, stack);
    hide MarkupAt, MarkupCalls, Closed, PlainCalls, TextEnd, StartTagAt, StartTagEnd, Opened, OpenedCalls, ClosedCalls;
  }

  /** All calls from `p` on: turn by turn, up to a kept comment outside all elements, or to the
      end of the input, where what is still open is ended. */
  ghost function AllCalls(l: Lexer, o: Options, p: nat, stack: seq<Open>): seq<Event>
    requires Sane(l) && SaneStacked(l)
    decreases l.length - p
  {
    if p >= l.length then EndsTo(stack, 0)
    else
      var t, calls := TurnAt(l, o, p, stack), TurnCalls(l, o, p, stack);
      if o.keepComments && t.comment && stack == [] then calls
      else if t.pos == p then calls + [Chars(p, l.length)] + EndsTo(t.stack, 0)
      else calls + AllCalls(l, o, t.pos, t.stack)
  }

  /** The run from `p` on begins with its turn. */
  lemma FromHere(l: Lexer, o: Options, p: nat, stack: seq<Open>)
    requires Sane(l) && SaneStacked(l)
    ensures p >= l.length ==> AllCalls(l, o, p, stack) == EndsTo(stack, 0) && !StrayComment(l, o, p, stack)
    ensures p < l.length ==>
      var t, calls := TurnAt(l, o, p, stack), TurnCalls(l, o, p, stack);
      AllCalls(l, o, p, stack) ==
        (if o.keepComments && t.comment && stack == [] then calls
         else if t.pos == p then calls + [Chars(p, l.length)] + EndsTo(t.stack, 0)
         else calls + AllCalls(l, o, t.pos, t.stack)) &&
      (StrayComment(l, o, p, stack) <==>
        (t.comment && stack == []) || (t.pos > p && StrayComment(l, o, t.pos, t.stack)))
  {
  }

  function StartsIn(events: seq<Event>): seq<Event> {
    if events == [] then []
    else StartsIn(events[..|events| - 1]) + if events[|events| - 1].Start? then [events[|events| - 1]] else []
  }

  lemma {:induction false} StartsJoin(a: seq<Event>, b: seq<Event>)
    ensures StartsIn(a + b) == StartsIn(a) + StartsIn(b)
    decreases |b|
  {
    if b == [] {
      assert a + b == a;
    } else {
      StartsJoin(a, b[..|b| - 1]);
      assert (a + b)[..|a + b| - 1] == a + b[..|b| - 1] && (a + b)[|a + b| - 1] == b[|b| - 1];
    }
  }

  /** The elements that the markup of this turn starts: that of a complete start tag, or that of
      a `</br>` or `</p>` that has nothing to close. */
  ghost function StartedAt(l: Lexer, o: Options, p: nat, stack: seq<Open>): seq<Event>
    requires Sane(l) && p < l.length
  {
    if (LastTag(stack).Some? && o.isPlainText(LastTag(stack).value)) || l.OpeningBracket(p) != Some(p) then []
    else if l.IsComment(p) && l.CommentEnd(p).Some? then []
    else if l.IsConditional(p) && l.ConditionalEnd(p).Some? then []
    else if l.Doctype(p) > 0 then []
    else if l.EndTag(p).Some? then
      var tag := l.EndTag(p).value.1;
      if (exists e | e in stack :: e.lowerCased == o.lower(tag)) || o.lower(tag) !in {"br", "p"} then []
      else [Start(tag, o.lower(tag) == "br")]
    else
      match StartTagAt(l, p)
      case None => []
      case Some(tag) => [Start(tag.name, o.isUnary(tag.name) || tag.slash)]
  }

  ghost function Started(l: Lexer, o: Options, p: nat, stack: seq<Open>): seq<Event>
    requires Sane(l) && SaneStacked(l)
    decreases l.length - p
  {
    if p >= l.length then []
    else
      var t := TurnAt(l, o, p, stack);
      StartedAt(l, o, p, stack) +
      if (o.keepComments && t.comment && stack == []) || t.pos == p then [] else Started(l, o, t.pos, t.stack)
  }

  /** Open elements are remembered under their own names. */
  predicate NamesAgree(o: Options, stack: seq<Open>) {
    forall e | e in stack :: e.lowerCased == o.lower(e.tag)
  }

  lemma {:induction false} ClosestFinds(stack: seq<Open>, lowerCased: string)
    ensures ClosestOpen(stack, lowerCased) < 0 <==> forall e | e in stack :: e.lowerCased != lowerCased
    ensures stack != [] && stack[|stack| - 1].lowerCased == lowerCased ==> ClosestOpen(stack, lowerCased) == |stack| - 1
  {
    if stack != [] && stack[|stack| - 1].lowerCased != lowerCased {
      ClosestFinds(stack[..|stack| - 1], lowerCased);
      assert stack == stack[..|stack| - 1] + [stack[|stack| - 1]];
    }
  }

  lemma {:induction false} EndsStartNothing(stack: seq<Open>, at: nat)
    requires at <= |stack|
    ensures StartsIn(EndsTo(stack, at)) == []
    decreases |stack|
  {
    if |stack| > at {
      EndsStartNothing(stack[..|stack| - 1], at);
      StartsJoin([End(stack[|stack| - 1].tag)], EndsTo(stack[..|stack| - 1], at));
      OneCall(End(stack[|stack| - 1].tag));
    }
  }

  lemma OneCall(e: Event)
    ensures StartsIn([e]) == if e.Start? then [e] else []
  {
    assert [e][..0] == [];
  }

  lemma ClosedStarts(o: Options, stack: seq<Open>, tagName: string)
    ensures StartsIn(ClosedCalls(o, stack, tagName)) ==
            (if (exists e | e in stack :: e.lowerCased == o.lower(tagName)) || o.lower(tagName) !in {"br", "p"} then []
             else [Start(tagName, o.lower(tagName) == "br")])
  {
    var at := ClosestOpen(stack, o.lower(tagName));
    ClosestFinds(stack, o.lower(tagName));
    if at >= 0 {
      EndsStartNothing(stack, at);
    } else if o.lower(tagName) == "br" {
      OneCall(Start(tagName, true));
    } else if o.lower(tagName) == "p" {
      StartsJoin([Start(tagName, false)], [End(tagName)]);
      OneCall(Start(tagName, false));
      OneCall(End(tagName));
    }
  }

  /** An end that is implied closes the last element, so it starts nothing. */
  lemma ImpliedEnd(o: Options, stack: seq<Open>, tagName: string)
    requires NamesAgree(o, stack) && LastTag(stack) == Some(tagName)
    ensures Closed(o, stack, tagName) == stack[..|stack| - 1] && NamesAgree(o, Closed(o, stack, tagName))
    ensures ClosedCalls(o, stack, tagName) == [End(tagName)]
  {
    assert stack[|stack| - 1] in stack;
    ClosestFinds(stack, o.lower(tagName));
    assert EndsTo(stack, |stack| - 1) == [End(tagName)] + EndsTo(stack[..|stack| - 1], |stack| - 1);
  }

  /** What a start tag does, in full: at most two elements end, the last ones, and the element
      starts and stays open unless it is unary. */
  lemma OpenedExactly(o: Options, stack: seq<Open>, tagName: string, unarySlash: bool)
    requires NamesAgree(o, stack)
    ensures var unary := o.isUnary(tagName) || unarySlash;
            var leavesP := o.expectHtml && LastTag(stack) == Some("p") && o.isNonPhrasing(tagName);
            var outside := if leavesP then stack[..|stack| - 1] else stack;
            var leavesSame := o.expectHtml && o.canBeLeftOpen(tagName) && LastTag(outside) == Some(tagName);
            var around := if leavesSame then outside[..|outside| - 1] else outside;
            Opened(o, stack, tagName, unarySlash) == (if unary then around else around + [Open(tagName, o.lower(tagName))]) &&
            OpenedCalls(o, stack, tagName, unarySlash) ==
              (if leavesP then [End("p")] else []) + (if leavesSame then [End(tagName)] else []) + [Start(tagName, unary)] &&
            NamesAgree(o, Opened(o, stack, tagName, unarySlash))
  {
    if EndsParagraph(o, stack, tagName) {
      ImpliedEnd(o, stack, "p");
    }
    if EndsSame(o, Outside(o, stack, tagName), tagName) {
      ImpliedEnd(o, Outside(o, stack, tagName), tagName);
    }
    hide Closed, ClosedCalls;
  }

  lemma OpenedStarts(o: Options, stack: seq<Open>, tagName: string, unarySlash: bool)
    requires NamesAgree(o, stack)
    ensures StartsIn(OpenedCalls(o, stack, tagName, unarySlash)) == [Start(tagName, o.isUnary(tagName) || unarySlash)]
    ensures NamesAgree(o, Opened(o, stack, tagName, unarySlash))
  {
    OpenedExactly(o, stack, tagName, unarySlash);
    hide Opened, OpenedCalls, StartsIn, NamesAgree;
    var start := Start(tagName, o.isUnary(tagName) || unarySlash);
    var leavesP := o.expectHtml && LastTag(stack) == Some("p") && o.isNonPhrasing(tagName);
    var outside := if leavesP then stack[..|stack| - 1] else stack;
    var leavesSame := o.expectHtml && o.canBeLeftOpen(tagName) && LastTag(outside) == Some(tagName);
    var a, b := if leavesP then [End("p")] else [], if leavesSame then [End(tagName)] else [];
    StartsJoin(a + b, [start]);
    StartsJoin(a, b);
    OneCall(start);
    OneCall(End("p"));
    OneCall(End(tagName));
    NoCall();
  }

  lemma NoCall()
    ensures StartsIn([]) == []
  {
  }

  lemma ClosedAgrees(o: Options, stack: seq<Open>, tagName: string)
    requires NamesAgree(o, stack)
    ensures NamesAgree(o, Closed(o, stack, tagName))
  {
  }

  lemma MarkupStarts(l: Lexer, o: Options, p: nat, stack: seq<Open>)
    requires Sane(l) && p < l.length && NamesAgree(o, stack)
    requires LastTag(stack).None? || !o.isPlainText(LastTag(stack).value)
    requires l.OpeningBracket(p) == Some(p)
    ensures StartsIn(MarkupCalls(l, o, p, stack)) == StartedAt(l, o, p, stack)
    ensures NamesAgree(o, MarkupAt(l, o, p, stack).stack)
  {
    hide Sane, StartTagAt, StartTagEnd, Closed, ClosedCalls, OpenedCalls, Opened, StartsIn, NamesAgree, ClosestOpen;
    if l.IsComment(p) && l.CommentEnd(p).Some? {
      OneCall(Comment(p + 4, l.CommentEnd(p).value));
      NoCall();
    } else if (l.IsConditional(p) && l.ConditionalEnd(p).Some?) || l.Doctype(p) > 0 {
      NoCall();
    } else if l.EndTag(p).Some? {
      ClosedStarts(o, stack, l.EndTag(p).value.1);
      ClosedAgrees(o, stack, l.EndTag(p).value.1);
    } else if StartTagAt(l, p).Some? {
      OpenedStarts(o, stack, StartTagAt(l, p).value.name, StartTagAt(l, p).value.slash);
    } else {
      NoCall();
    }
  }

  /** A plain-text element is ended by its own name. */
  lemma PlainStarts(l: Lexer, o: Options, p: nat, stack: seq<Open>)
    requires LastTag(stack).Some? && NamesAgree(o, stack)
    requires o.lower(o.lower(LastTag(stack).value)) == o.lower(LastTag(stack).value)
    ensures var tag := o.lower(LastTag(stack).value);
            StartsIn(PlainCalls(l, o, p, stack, tag)) == [] && NamesAgree(o, Closed(o, stack, tag))
  {
    PlainExactly(l, o, p, stack);
    var tag := o.lower(LastTag(stack).value);
    ClosedAgrees(o, stack, tag);
    hide NamesAgree, Closed, PlainCalls, StartsIn;
    var from := if o.ignoresNewline(tag) && l.StackedText(p, tag) > 0 && l.Newline(p) then p + 1 else p;
    var text := if l.StackedEnd(p, tag) > 0 then [Chars(from, p + l.StackedText(p, tag))] else [];
    StartsJoin(text, [End(LastTag(stack).value)]);
    OneCall(Chars(from, p + l.StackedText(p, tag)));
    OneCall(End(LastTag(stack).value));
    NoCall();
  }

  lemma TextStarts(from: nat, to: nat)
    ensures StartsIn(TextCalls(from, to)) == []
  {
    OneCall(Chars(from, to));
    NoCall();
  }

  lemma TurnStarts(l: Lexer, o: Options, p: nat, stack: seq<Open>)
    requires Sane(l) && SaneStacked(l) && p < l.length && NamesAgree(o, stack)
    requires forall tag :: o.lower(o.lower(tag)) == o.lower(tag)
    ensures StartsIn(TurnCalls(l, o, p, stack)) == StartedAt(l, o, p, stack)
    ensures NamesAgree(o, TurnAt(l, o, p, stack).stack)
  {
    hide MarkupAt, MarkupCalls, StartsIn, TextCalls, PlainCalls, Closed, NamesAgree;
    if LastTag(stack).None? || !o.isPlainText(LastTag(stack).value) {
      var bracket := l.OpeningBracket(p);
      if bracket == Some(p) {
        MarkupStarts(l, o, p, stack);
        var markup := MarkupAt(l, o, p, stack);
        var text := if markup.taken then [] else TextCalls(markup.pos, TextEnd(l, markup.pos));
        TextStarts(markup.pos, TextEnd(l, markup.pos));
        NoCall();
        StartsJoin(MarkupCalls(l, o, p, stack), text);
      } else {
        TextStarts(p, if bracket.Some? then TextEnd(l, bracket.value) else l.length);
      }
    } else {
      PlainStarts(l, o, p, stack);
    }
  }

  /** Of the start calls of a whole run there is exactly one for every complete start tag that
      the tokenizer comes to, with its name, and one for each `</br>` or `</p>` with nothing to
      close; there are no others. */
  lemma {:induction false} StartsAreStarted(l: Lexer, o: Options, p: nat, stack: seq<Open>)
    requires Sane(l) && SaneStacked(l) && NamesAgree(o, stack) && forall tag :: o.lower(o.lower(tag)) == o.lower(tag)
    ensures StartsIn(AllCalls(l, o, p, stack)) == Started(l, o, p, stack)
    decreases l.length - p
  {
    hide StartsIn, TurnCalls, TurnAt, StartedAt, NamesAgree, EndsTo;
    if p >= l.length {
      EndsStartNothing(stack, 0);
    } else {
      TurnStarts(l, o, p, stack);
      var t, calls := TurnAt(l, o, p, stack), TurnCalls(l, o, p, stack);
      if o.keepComments && t.comment && stack == [] {
      } else if t.pos == p {
        StartsJoin(calls + [Chars(p, l.length)], EndsTo(t.stack, 0));
        StartsJoin(calls, [Chars(p, l.length)]);
        OneCall(Chars(p, l.length));
        EndsStartNothing(t.stack, 0);
      } else {
        StartsAreStarted(l, o, t.pos, t.stack);
        StartsJoin(calls, AllCalls(l, o, t.pos, t.stack));
      }
    }
  }

  /** What the expressions match in the seven characters of an empty comment. */
  const EMPTY_COMMENT := Lexer(
    7, p => if p == 0 then Some(0) else None, p => p == 0, p => if p <= 4 then Some(4) else None,
    p => false, p => None, p => 0, p => None, p => None, p => None, p => 0, (p, tag) => 0, (p, tag) => 0, p => false)

  /** A template that is nothing but a comment has a stray comment. */
  lemma EmptyCommentIsStray(o: Options)
    ensures Sane(EMPTY_COMMENT) && SaneStacked(EMPTY_COMMENT) && StrayComment(EMPTY_COMMENT, o, 0, [])
  {
    assert MarkupAt(EMPTY_COMMENT, o, 0, []).comment;
  }

  class Parser {
    const lexer: Lexer
    const options: Options
    var pos: nat
    var stack: seq<Open>
    var lastTag: Option<string>
    var events: seq<Event>
    /** `parse`'s own stack. */
    var elements: seq<string>
    /** The TypeError of the comment callback when no element is open. */
    var threw: bool

    constructor (lexer: Lexer, options: Options)
      requires Sane(lexer) && SaneStacked(lexer)
      ensures this.lexer == lexer && this.options == options && Mirrored() && events == [] && pos == 0 && !threw
    {
      this.lexer, this.options := lexer, options;
      pos, stack, lastTag, events, elements, threw := 0, [], None, [], [], false;
      new;
      assert Tags(stack) == [];
    }

    /** The calls so far are nested, and both stacks hold exactly the open elements. */
    ghost predicate Nested()
      reads `events, `stack, `elements, `threw
    {
      OpenAfter(events) == Some(Tags(stack)) && elements == Tags(stack) && threw == !CommentsInside(events)
    }

    ghost predicate Mirrored()
      reads this
    {
      Sane(lexer) && SaneStacked(lexer) && pos <= lexer.length && lastTag == LastTag(stack) && Nested()
    }

    // ------------------------------------------------------------ the callbacks of parse

    method OnStart(tag: string, unary: bool)
      modifies `events, `elements
      ensures events == old(events) + [Start(tag, unary)]
      ensures elements == if unary then old(elements) else old(elements) + [tag]
    {
      events := events + [Start(tag, unary)];
      if !unary {
        elements := elements + [tag];
      }
    }

    /** `end` reads the last element of the stack, so there has to be one. */
    method OnEnd(tag: string)
      requires elements != []
      modifies `events, `elements
      ensures events == old(events) + [End(tag)]
      ensures elements == old(elements[..|elements| - 1])
    {
      events := events + [End(tag)];
      elements := elements[..|elements| - 1];
    }

    method OnChars(from: nat, to: nat)
      requires Mirrored()
      modifies `events
      ensures Mirrored() && events == old(events) + [Chars(from, to)]
    {
      hide OpenAfter, CommentsInside;
      OpenOneMore(events, Chars(from, to));
      events := events + [Chars(from, to)];
    }

    /** `comment` pushes to the children of the current element without asking whether there
        is one. */
    method OnComment(from: nat, to: nat)
      requires Mirrored()
      modifies `events, `threw
      ensures Mirrored() && threw == (old(threw) || stack == []) && events == old(events) + [Comment(from, to)]
    {
      hide OpenAfter, CommentsInside;
      OpenOneMore(events, Comment(from, to));
      events := events + [Comment(from, to)];
      threw := threw || elements == [];
    }

    // ------------------------------------------------------------ parseEndTag

    /** The closest open element with this name, counted from the outside. */
    method FindOpen(lowerCased: string) returns (at: int)
      ensures -1 <= at < |stack|
      ensures at >= 0 ==> stack[at].lowerCased == lowerCased
      ensures forall k | at < k < |stack| && k >= 0 :: stack[k].lowerCased != lowerCased
      ensures at == ClosestOpen(stack, lowerCased)
    {
      at := |stack| - 1;
      assert stack[..at + 1] == stack;
      while at >= 0 && stack[at].lowerCased != lowerCased
        invariant -1 <= at < |stack|
        invariant forall k | at < k < |stack| && k >= 0 :: stack[k].lowerCased != lowerCased
        invariant ClosestOpen(stack, lowerCased) == ClosestOpen(stack[..at + 1], lowerCased)
      {
        assert stack[..at + 1][..at] == stack[..at];
        at := at - 1;
      }
    }

    /** Closes the open elements from the innermost to the one at `at`. */
    method CloseDownTo(at: nat)
      requires Mirrored() && at <= |stack|
      modifies this
      ensures Mirrored() && stack == old(stack)[..at] && pos == old(pos) && threw == old(threw)
      ensures events == old(events) + EndsTo(old(stack), at)
    {
      hide OpenAfter, CommentsInside, Sane, SaneStacked, EndsTo;
      EndsToHere(stack, at);
      ghost var tags := Tags(stack);
      var i := |stack| - 1;
      assert stack[..|stack|] == stack;
      while i >= at
        invariant at - 1 <= i < |stack|
        invariant events + EndsTo(stack[..i + 1], at) == old(events) + EndsTo(old(stack), at)
        invariant stack == old(stack) && pos == old(pos) && threw == old(threw)
        invariant elements == tags[..i + 1] && OpenAfter(events) == Some(tags[..i + 1])
        invariant CommentsInside(events) == CommentsInside(old(events))
      {
        OpenOneMore(events, End(stack[i].tag));
        InnermostEnds(stack, i, at);
        assert tags[..i + 1][..i] == tags[..i];
        OnEnd(stack[i].tag);
        i := i - 1;
      }
      stack := stack[..at];
      assert Tags(stack) == tags[..at];
      lastTag := if at == 0 then None else Some(stack[at - 1].tag);
    }

    /** `parseEndTag` with a tag name: closes the closest open element of that name with all
        inside it; otherwise only `</br>` and `</p>` have an effect, which opens nothing. */
    method ParseEndTag(tagName: string)
      requires Mirrored()
      modifies this
      ensures Mirrored() && pos == old(pos) && threw == old(threw)
      ensures |stack| <= |old(stack)| && stack == old(stack)[..|stack|]
      ensures stack != old(stack) ==> old(stack)[|stack|].lowerCased == options.lower(tagName)
      ensures forall k | |stack| < k < |old(stack)| :: old(stack)[k].lowerCased != options.lower(tagName)
      ensures stack == Closed(options, old(stack), tagName)
      ensures stack == old(stack) ==> forall e | e in stack :: e.lowerCased != options.lower(tagName)
      ensures events == old(events) + ClosedCalls(options, old(stack), tagName)
    {
      hide OpenAfter, CommentsInside, Sane, SaneStacked;
      var lowerCased := options.lower(tagName);
      var at := FindOpen(lowerCased);
      if at >= 0 {
        CloseDownTo(at);
      } else {
        Unopened(tagName, lowerCased);
      }
    }

    /** An end tag that closes nothing: `</br>` is a line break, `</p>` an empty paragraph. */
    method Unopened(tagName: string, lowerCased: string)
      requires Mirrored()
      modifies `events, `elements
      ensures Mirrored()
      ensures events == old(events) + (if lowerCased == "br" then [Start(tagName, true)]
                                       else if lowerCased == "p" then [Start(tagName, false), End(tagName)] else [])
    {
      hide OpenAfter, CommentsInside, Sane, SaneStacked;
      ghost var before := elements;
      if lowerCased == "br" {
        OpenOneMore(events, Start(tagName, true));
        OnStart(tagName, true);
      } else if lowerCased == "p" {
        OpenOneMore(events, Start(tagName, false));
        OpenOneMore(events + [Start(tagName, false)], End(tagName));
        OnStart(tagName, false);
        OnEnd(tagName);
        assert elements == before;
      }
    }

    // ------------------------------------------------------------ start tags

    /** `parseStartTag`: it may advance and still find no start tag. */
    method ParseStartTag() returns (found: Option<StartTag>)
      requires Mirrored()
      modifies `pos
      ensures Mirrored() && pos >= old(pos) && (found.Some? ==> pos > old(pos))
      ensures found == StartTagAt(lexer, old(pos)) && pos == StartTagEnd(lexer, old(pos))
    {
      hide Nested, SaneStacked;
      var end;
      found, end := ReadStartTag(pos);
      pos := end;
    }

    method ReadStartTag(from: nat) returns (found: Option<StartTag>, end: nat)
      requires Sane(lexer) && from <= lexer.length
      ensures found == StartTagAt(lexer, from) && end == StartTagEnd(lexer, from)
    {
      hide Sane, AttributesEnd, StartTagAt, StartTagEnd, Lexer.StartTagOpen, Lexer.StartTagClose;
      StartTagCases(lexer, from);
      var start := lexer.StartTagOpen(from);
      if start.None? {
        return None, from;
      }
      end := from + start.value.0;
      end := SkipAttributes(end);
      var close := lexer.StartTagClose(end);
      if close.None? {
        return None, end;
      }
      return Some(StartTag(start.value.1, close.value.1)), end + close.value.0;
    }

    method SkipAttributes(from: nat) returns (end: nat)
      requires Sane(lexer) && from <= lexer.length
      ensures end == AttributesEnd(lexer, from) && end <= lexer.length
    {
      hide Sane, AttributesEnd;
      end := from;
      AttributesFrom(lexer, end);
      while lexer.StartTagClose(end).None? && lexer.Attribute(end) > 0
        invariant end <= lexer.length && AttributesEnd(lexer, end) == AttributesEnd(lexer, from)
        decreases lexer.length - end
      {
        AttributesFrom(lexer, end);
        end := end + lexer.Attribute(end);
      }
      AttributesFrom(lexer, end);
    }

    method HandleStartTag(tagName: string, unarySlash: bool)
      requires Mirrored()
      modifies this
      ensures Mirrored() && pos == old(pos) && threw == old(threw)
      ensures stack == Opened(options, old(stack), tagName, unarySlash)
      ensures events == old(events) + OpenedCalls(options, old(stack), tagName, unarySlash)
    {
      hide Nested, Sane, SaneStacked, Outside, OutsideCalls, Around, AroundCalls;
      if options.expectHtml {
        LeaveParagraph(tagName);
        LeaveSame(tagName);
      } else {
        NothingImplied(tagName);
      }
      OpenElement(tagName, options.isUnary(tagName) || unarySlash);
    }

    method LeaveParagraph(tagName: string)
      requires Mirrored() && options.expectHtml
      modifies this
      ensures Mirrored() && pos == old(pos) && threw == old(threw)
      ensures stack == Outside(options, old(stack), tagName)
      ensures events == old(events) + OutsideCalls(options, old(stack), tagName)
    {
      hide Nested, Sane, SaneStacked, Closed, ClosedCalls;
      if lastTag == Some("p") && options.isNonPhrasing(tagName) {
        ParseEndTag("p");
      }
    }

    method LeaveSame(tagName: string)
      requires Mirrored() && options.expectHtml
      modifies this
      ensures Mirrored() && pos == old(pos) && threw == old(threw)
      ensures stack == Around(options, old(stack), tagName)
      ensures events == old(events) + AroundCalls(options, old(stack), tagName)
    {
      hide Nested, Sane, SaneStacked, Closed, ClosedCalls;
      if options.canBeLeftOpen(tagName) && lastTag == Some(tagName) {
        ParseEndTag(tagName);
      }
    }

    lemma NothingImplied(tagName: string)
      requires !options.expectHtml
      ensures forall stack ::
        Outside(options, stack, tagName) == Around(options, stack, tagName) == stack &&
        OutsideCalls(options, stack, tagName) == AroundCalls(options, stack, tagName) == []
    {
    }

    method OpenElement(tagName: string, unary: bool)
      requires Mirrored()
      modifies this
      ensures Mirrored() && pos == old(pos) && threw == old(threw)
      ensures stack == if unary then old(stack) else old(stack) + [Open(tagName, options.lower(tagName))]
      ensures events == old(events) + [Start(tagName, unary)]
    {
      hide OpenAfter, CommentsInside, Sane, SaneStacked;
      OpenOneMore(events, Start(tagName, unary));
      if !unary {
        assert Tags(stack + [Open(tagName, options.lower(tagName))]) == Tags(stack) + [tagName];
        stack := stack + [Open(tagName, options.lower(tagName))];
        lastTag := Some(tagName);
      }
      OnStart(tagName, unary);
    }

    // ------------------------------------------------------------ the loop

    /** Markup at an opening bracket; the result says whether the loop goes on from there. */
    method Markup() returns (taken: bool)
      requires Mirrored() && pos < lexer.length
      modifies this
      ensures Mirrored() && pos >= old(pos) && (taken ==> pos > old(pos))
      ensures var t := MarkupAt(lexer, options, old(pos), old(stack));
              (taken, pos, stack) == (t.taken, t.pos, t.stack) &&
              threw == (old(threw) || (options.keepComments && t.comment && old(stack) == []))
      ensures events == old(events) + MarkupCalls(lexer, options, old(pos), old(stack))
    {
      hide Nested, Sane, SaneStacked, StartTagAt, StartTagEnd, Opened, Closed, ClosedCalls, OpenedCalls, MarkupAt, MarkupCalls;
      MarkupCases(lexer, options, pos, stack);
      if lexer.IsComment(pos) {
        var commentEnd := lexer.CommentEnd(pos);
        if commentEnd.Some? {
          if options.keepComments {
            OnComment(pos + 4, commentEnd.value);
          }
          pos := commentEnd.value + 3;
          return true;
        }
      }
      if lexer.IsConditional(pos) {
        var conditionalEnd := lexer.ConditionalEnd(pos);
        if conditionalEnd.Some? {
          pos := conditionalEnd.value + 2;
          return true;
        }
      }
      if lexer.Doctype(pos) > 0 {
        pos := pos + lexer.Doctype(pos);
        return true;
      }
      var endTag := lexer.EndTag(pos);
      if endTag.Some? {
        pos := pos + endTag.value.0;
        ParseEndTag(endTag.value.1);
        return true;
      }
      var start := ParseStartTag();
      if start.Some? {
        HandleStartTag(start.value.name, start.value.slash);
        if lastTag.Some? && options.ignoresNewline(lastTag.value) && lexer.Newline(pos) {
          pos := pos + 1;
        }
        return true;
      }
      return false;
    }

    /** Text up to the next bracket that begins some markup, or to the last bracket. */
    method TextUpTo(bracket: nat)
      requires Mirrored() && pos <= bracket <= lexer.length
      modifies this
      ensures Mirrored() && pos == TextEnd(lexer, bracket) && stack == old(stack) && threw == old(threw)
      ensures events == old(events) + TextCalls(old(pos), TextEnd(lexer, bracket))
    {
      hide Nested, SaneStacked;
      var textEnd := bracket;
      while !IsTagLike(lexer, textEnd) && lexer.OpeningBracket(textEnd + 1).Some?
        invariant bracket <= textEnd <= lexer.length && Mirrored() && TextEnd(lexer, textEnd) == TextEnd(lexer, bracket)
        decreases lexer.length - textEnd
      {
        textEnd := lexer.OpeningBracket(textEnd + 1).value;
      }
      var start := pos;
      pos := textEnd;
      if textEnd > start {
        OnChars(start, textEnd);
      }
    }

    /** Within script, style and textarea: everything up to the end tag is text. */
    method PlainText(tag: string)
      requires Mirrored()
      modifies this
      ensures Mirrored() && threw == old(threw)
      ensures pos == old(pos) + lexer.StackedEnd(old(pos), options.lower(tag))
      ensures stack == Closed(options, old(stack), options.lower(tag))
      ensures events == old(events) + PlainCalls(lexer, options, old(pos), old(stack), options.lower(tag))
    {
      hide Nested, Closed, ClosedCalls, Sane;
      var stackedTag := options.lower(tag);
      var consumed := lexer.StackedEnd(pos, stackedTag);
      if consumed > 0 {
        var inner := lexer.StackedText(pos, stackedTag);
        var from := if options.ignoresNewline(stackedTag) && inner > 0 && lexer.Newline(pos) then pos + 1 else pos;
        OnChars(from, pos + inner);
        pos := pos + consumed;
      }
      ParseEndTag(stackedTag);
    }

    /** `parseHTML`: it ends for every input; unless comments are kept and one stands outside
        all elements, the calls it has made are balanced and both stacks are empty. */
    method ParseHtml()
      requires Mirrored() && events == [] && !threw && pos == 0 && stack == []
      modifies this
      ensures threw <==> options.keepComments && StrayComment(lexer, options, 0, [])
      ensures !threw ==> Balanced(events) && stack == [] && elements == []
      ensures threw == !CommentsInside(events)
      ensures OpenAfter(events).Some?
      ensures events == AllCalls(lexer, options, 0, [])
    {
      hide Nested, AllCalls, StrayComment, TurnAt, TurnCalls, EndsTo, OpenAfter, CommentsInside;
      FromHere(lexer, options, pos, stack);
      while pos < lexer.length
        invariant Mirrored() && !threw
        invariant options.keepComments ==>
          StrayComment(lexer, options, pos, stack) == StrayComment(lexer, options, 0, [])
        invariant events + AllCalls(lexer, options, pos, stack) == AllCalls(lexer, options, 0, [])
        decreases lexer.length - pos
      {
        FromHere(lexer, options, pos, stack);
        var last := pos;
        var taken := TakeTurn();
        if threw {
          NestedSays();
          return;
        }
        if pos == last {
          OnChars(pos, lexer.length);
          CloseDownTo(0);
          NestedSays();
          return;
        }
      }
      FromHere(lexer, options, pos, stack);
      CloseDownTo(0);
      NestedSays();
    }

    lemma NestedSays()
      requires Nested()
      ensures OpenAfter(events).Some? && threw == !CommentsInside(events)
      ensures stack == [] ==> Balanced(events) && elements == []
    {
      assert stack == [] ==> Tags(stack) == [];
    }

    /** One turn of the loop. */
    method TakeTurn() returns (taken: bool)
      requires Mirrored() && !threw && pos < lexer.length
      modifies this
      ensures Mirrored()
      ensures var t := TurnAt(lexer, options, old(pos), old(stack));
              (taken, pos, stack) == (t.taken, t.pos, t.stack) &&
              threw == (options.keepComments && t.comment && old(stack) == [])
      ensures events == old(events) + TurnCalls(lexer, options, old(pos), old(stack))
    {
      hide Nested, SaneStacked, MarkupAt, MarkupCalls, TextEnd, Closed, PlainCalls;
      taken := false;
      if lastTag.None? || !options.isPlainText(lastTag.value) {
        var bracket := lexer.OpeningBracket(pos);
        if bracket == Some(pos) {
          taken := Markup();
          if !threw && !taken {
            TextUpTo(pos);
          }
        } else if bracket.Some? {
          TextUpTo(bracket.value);
        } else {
          OnChars(pos, lexer.length);
          pos := lexer.length;
        }
      } else {
        PlainText(lastTag.value);
      }
    }
  }
}
