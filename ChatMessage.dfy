/** The message record and the `ChatMessage` renderer: a pure function from
    a message to what it shows. A list message is split into lines, each line
    classified as a bullet item or a paragraph; any other message is one
    verbatim block. Quick replies become one control per entry. */
module ChatMessage {
  import opened JsString

  datatype Option<T> = None | Some(value: T)

  /** `type: 'user' | 'ai'`. */
  datatype Author = User | Ai

  /** One transcript entry. The two optional fields of the record are
      `Option`s: `None` stands for an absent property. */
  datatype Message = Message(
    id: string,
    author: Author,
    content: string,
    quickReplies: Option<seq<string>>,
    isList: Option<bool>)

  /** A rendered line of a list message. */
  datatype Item = Bullet(text: string) | Paragraph(text: string)

  /** The bubble's content: the items of a list message, or one block. */
  datatype Body = ListBody(items: seq<Item>) | Block(text: string)

  /** `flex-row-reverse` (right) for the user, `flex-row` (left) otherwise. */
  datatype Side = Left | Right

  datatype Avatar = UserAvatar | BotAvatar

  /** A quick-reply button: the text it shows and the reply its `onClick`
      hands to `onQuickReply`. */
  datatype Control = Control(text: string, reply: string)

  datatype View = View(side: Side, avatar: Avatar, body: Body, controls: seq<Control>)

  /** The two characters of the class `[•-]`. */
  predicate IsMarker(c: char) {
    c == '•' || c == '-'
  }

  /** `line.trim().startsWith('•') || line.trim().startsWith('-')`: the first
      character of the line that is not whitespace is a marker. */
  function IsBullet(line: string): (b: bool)
    ensures b <==> exists k :: 0 <= k < |line| && BlankIn(line, 0, k) && IsMarker(line[k])
  {
    TrimStartsWithIff(line, '•');
    TrimStartsWithIff(line, '-');
    StartsWith(Trim(line), "•") || StartsWith(Trim(line), "-")
  }

  /** `line.replace` with the pattern `^[•-]\s*` and an empty replacement: the pattern is anchored and has no `g`
      flag, so at most one marker is removed, and only at index 0, together
      with the whitespace run after it. The result is always a suffix of the
      line; when index 0 is not a marker the line is returned unchanged. */
  function StripMarker(line: string): (r: string)
    ensures |r| <= |line| && r == line[|line| - |r|..]
    ensures |line| > 0 && IsMarker(line[0]) ==>
              |r| < |line| && BlankIn(line, 1, |line| - |r|) && (r == [] || !IsWhitespace(r[0]))
    ensures !(|line| > 0 && IsMarker(line[0])) ==> r == line
  {
    if |line| > 0 && IsMarker(line[0]) then
      var r := TrimStart(line[1..]);
      assert forall i :: 1 <= i < |line| ==> line[i] == line[1..][i - 1];
      r
    else
      line
  }

  /** One list line: a bullet item showing the stripped text, or a paragraph
      showing the line exactly. */
  function RenderLine(line: string): (item: Item)
    ensures item.Bullet? <==> IsBullet(line)
    ensures item.Paragraph? ==> item.text == line
    ensures item.Bullet? ==> item.text == StripMarker(line)
  {
    if IsBullet(line) then Bullet(StripMarker(line)) else Paragraph(line)
  }

  /** `content.split('\n').map(...)`: one item per line, in the order of the
      lines. */
  function RenderList(content: string): (items: seq<Item>)
    ensures |items| == |Split(content, '\n')|
    ensures forall i :: 0 <= i < |items| ==> items[i] == RenderLine(Split(content, '\n')[i])
  {
    var lines := Split(content, '\n');
    seq(|lines|, i requires 0 <= i < |lines| => RenderLine(lines[i]))
  }

  /** The quick replies a message offers; absent means none. */
  function Replies(m: Message): seq<string> {
    match m.quickReplies
    case Some(qs) => qs
    case None => []
  }

  /** `<ChatMessage message={m} .../>`. The side and the avatar depend on
      nothing but whether the author is the user; the body is the list
      rendering exactly when `isList` is set and otherwise the content
      verbatim; there is one control per quick reply, in order. */
  function Render(m: Message): (v: View)
    ensures (v.side == Right) <==> (m.author == User)
    ensures (v.avatar == UserAvatar) <==> (m.author == User)
    ensures m.isList == Some(true) ==> v.body == ListBody(RenderList(m.content))
    ensures m.isList != Some(true) ==> v.body == Block(m.content)
    ensures |v.controls| == |Replies(m)|
    ensures forall i :: 0 <= i < |v.controls| ==> v.controls[i].text == Replies(m)[i]
  {
    var isUser := m.author == User;
    var body := if m.isList == Some(true) then ListBody(RenderList(m.content)) else Block(m.content);
    var controls :=
      match m.quickReplies
      case Some(qs) =>
        if |qs| > 0 then seq(|qs|, i requires 0 <= i < |qs| => Control(qs[i], qs[i])) else []
      case None => [];
    View(if isUser then Right else Left, if isUser then UserAvatar else BotAvatar, body, controls)
  }

  /** Clicking control `i` of a view: the reply handed to `onQuickReply`, or
      `None` when the view has no such control. */
  function Activate(v: View, i: nat): (r: Option<string>)
    ensures r.Some? <==> i < |v.controls|
    ensures r.Some? ==> r.value == v.controls[i].reply
  {
    if i < |v.controls| then Some(v.controls[i].reply) else None
  }

  /** Control `i` of a rendered message exists exactly when the message has
      an `i`-th quick reply, and clicking it hands over exactly that reply.
      This holds whoever the author is. */
  lemma ActivateSendsReply(m: Message, i: nat)
    ensures Activate(Render(m), i) == if i < |Replies(m)| then Some(Replies(m)[i]) else None
  {
  }

  /** A message with three quick replies renders three controls, each
      showing and sending its reply, in order. */
  lemma ThreeControls(m: Message, a: string, b: string, c: string)
    requires m.quickReplies == Some([a, b, c])
    ensures Render(m).controls == [Control(a, a), Control(b, b), Control(c, c)]
  {
    var v := Render(m);
    assert |v.controls| == 3;
  }

  /** Reading the list items' source lines back: the pieces the items come
      from, joined with line breaks, are the content, so no character of the
      content is lost or reordered by the split. */
  lemma ListLinesRebuildContent(content: string)
    ensures Join(Split(content, '\n'), '\n') == content
  {
    JoinSplit(content, '\n');
  }

  /** A list message shows one item more than its content has line breaks. */
  lemma ListItemCount(content: string)
    ensures |RenderList(content)| == Count(content, '\n') + 1
  {
    SplitCount(content, '\n');
  }

  /** Content assembled from separator-free lines renders one item per
      line, each the rendering of that line. */
  lemma RenderListOfLines(lines: seq<string>)
    requires |lines| >= 1 && forall i :: 0 <= i < |lines| ==> '\n' !in lines[i]
    ensures |RenderList(Join(lines, '\n'))| == |lines|
    ensures forall i :: 0 <= i < |lines| ==> RenderList(Join(lines, '\n'))[i] == RenderLine(lines[i])
  {
    SplitJoin(lines, '\n');
  }

  /** A line starting with a character that is neither whitespace nor a
      marker is a paragraph. */
  lemma PlainLine(line: string)
    requires |line| > 0 && !IsWhitespace(line[0]) && !IsMarker(line[0])
    ensures RenderLine(line) == Paragraph(line)
  {
    assert !IsBullet(line) by {
      assert forall k :: 0 < k <= |line| && BlankIn(line, 0, k) ==> IsWhitespace(line[0]);
    }
  }

  /** An empty line renders as an empty paragraph, not skipped. */
  lemma EmptyLineIsEmptyParagraph()
    ensures RenderLine("") == Paragraph("")
  {
  }

  /** A bullet whose marker is preceded by any run of whitespace is
      classified as a bullet, but the anchored pattern does not match, so its
      text keeps the indentation and the marker. */
  lemma IndentedBulletKeepsMarker(line: string, k: nat)
    requires 0 < k < |line| && BlankIn(line, 0, k) && IsMarker(line[k])
    ensures RenderLine(line) == Bullet(line)
  {
    assert IsWhitespace(line[0]) && !IsMarker(line[0]);
    assert IsBullet(line);
  }

  /** The worked example: `"• A\nB\n- C"` renders as a bulleted "A", a
      paragraph "B" and a bulleted "C". */
  lemma RenderListExample()
    ensures RenderList("• A\nB\n- C") == [Bullet("A"), Paragraph("B"), Bullet("C")]
  {
    ExampleLines();
    ExampleItems();
    var items := RenderList("• A\nB\n- C");
    assert |items| == 3;
    assert items[0] == Bullet("A") && items[1] == Paragraph("B") && items[2] == Bullet("C");
    ThreeItems(items, Bullet("A"), Paragraph("B"), Bullet("C"));
  }

  lemma ThreeItems(items: seq<Item>, a: Item, b: Item, c: Item)
    requires |items| == 3 && items[0] == a && items[1] == b && items[2] == c
    ensures items == [a, b, c]
  {
  }

  lemma ExampleLines()
    ensures Split("• A\nB\n- C", '\n') == ["• A", "B", "- C"]
  {
    var lines := ["• A", "B", "- C"];
    assert lines[1..][1..] == ["- C"];
    assert Join(lines, '\n') == "• A\nB\n- C";
    SplitJoin(lines, '\n');
  }

  lemma ExampleItems()
    ensures RenderLine("• A") == Bullet("A")
    ensures RenderLine("B") == Paragraph("B")
    ensures RenderLine("- C") == Bullet("C")
  {
    assert ['•', ' '] + "A" == "• A" && ['-', ' '] + "C" == "- C";
    MarkedLine('•', "A");
    MarkedLine('-', "C");
  }

  /** A marker at index 0 followed by one space: the item shows the rest. */
  lemma MarkedLine(marker: char, rest: string)
    requires IsMarker(marker) && (rest == [] || !IsWhitespace(rest[0]))
    ensures RenderLine([marker, ' '] + rest) == Bullet(rest)
  {
    MarkedLineIsBullet(marker, rest);
    MarkedLineStrips(marker, rest);
  }

  lemma MarkedLineIsBullet(marker: char, rest: string)
    requires IsMarker(marker)
    ensures IsBullet([marker, ' '] + rest)
  {
    var line := [marker, ' '] + rest;
    assert BlankIn(line, 0, 0) && IsMarker(line[0]);
  }

  lemma MarkedLineStrips(marker: char, rest: string)
    requires IsMarker(marker) && (rest == [] || !IsWhitespace(rest[0]))
    ensures StripMarker([marker, ' '] + rest) == rest
  {
    var line := [marker, ' '] + rest;
    assert line[1..] == [' '] + rest;
    assert ([' '] + rest)[1..] == rest;
  }
}
