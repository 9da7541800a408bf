/**
 * Upload sections in a room's notes (shared/src/notes.ts): how the gateway tells what it put there itself from what
 * people wrote. Text is as the editor's document serialises it, marks and all.
 */
module NotesSections {
  import opened Options
  import opened Sequences

  const SECTION_PLACEHOLDER := "Analysing this upload. Its summary will appear here."

  datatype Inline = Text(raw: string) | Embed

  /** `touched` once a person has written in the block; it is no part of the document. */
  datatype Block = Block(node: string, parts: seq<Inline>, touched: bool)
  datatype Status = Processing | Done | Failed
  type Id = string

  /** What the notes hold, top to bottom. */
  datatype Top = Section(id: Id, title: string, status: Status, blocks: seq<Block>) | Loose(block: Block)

  // ---- text without its tags ----------------------------------------------------------------

  /** Where the first `>` is. */
  function Close(t: string): (at: Option<nat>)
    ensures at.Some? ==> at.value < |t| && t[at.value] == '>' && forall i | 0 <= i < at.value :: t[i] != '>'
    ensures at.None? ==> forall i | 0 <= i < |t| :: t[i] != '>'
  {
    if t == "" then None
    else if t[0] == '>' then Some(0)
    else match Close(t[1..]) case None => None case Some(i) => Some(i + 1)
  }

  /** Every `<`, one or more characters that are not `>`, and `>`, taken out from the left. */
  function Strip(t: string): string
    decreases |t|
  {
    if t == "" then ""
    else if t[0] == '<' && Close(t).Some? && Close(t).value >= 2 then Strip(t[Close(t).value + 1..])
    else [t[0]] + Strip(t[1..])
  }

  predicate Plain(t: string) { forall i | 0 <= i < |t| :: t[i] != '<' }

  lemma {:induction false} StripPlain(t: string, rest: string)
    requires Plain(t)
    ensures Strip(t + rest) == t + Strip(rest)
    decreases |t|
  {
    if t == "" {
      assert t + rest == rest;
    } else {
      StripPlain(t[1..], rest);
      assert (t + rest)[1..] == t[1..] + rest;
      assert t == [t[0]] + t[1..];
      assert [t[0]] + (t[1..] + Strip(rest)) == ([t[0]] + t[1..]) + Strip(rest);
    }
  }

  function Tag(inside: string): string { "<" + inside + ">" }

  lemma {:induction false} StripTag(inside: string, rest: string)
    requires inside != "" && forall i | 0 <= i < |inside| :: inside[i] != '>'
    ensures Strip(Tag(inside) + rest) == Strip(rest)
  {
    var t := Tag(inside) + rest;
    assert t[0] == '<' && t[|inside| + 1] == '>';
    assert forall i | 0 <= i < |inside| + 1 :: t[i] != '>';
    assert Close(t) == Some(|inside| + 1);
    assert t[|inside| + 2..] == rest;
  }

  /** Nothing between the brackets, or no closing one: they stay. */
  lemma {:induction false} LoneBracketsStay(text: string, rest: string)
    ensures Strip("<>" + rest) == "<>" + Strip(rest)
    ensures (forall i | 0 <= i < |text| :: text[i] != '>') ==> Strip(text) == text
    decreases |text|
  {
    var t := "<>" + rest;
    assert Close(t) == Some(1) by { assert t[0] == '<' && t[1] == '>'; }
    assert t[1..] == ">" + rest && (">" + rest)[1..] == rest;
    assert Strip(">" + rest) == ">" + Strip(rest);
    assert "<" + (">" + Strip(rest)) == "<>" + Strip(rest);
    if text != "" {
      LoneBracketsStay(text[1..], rest);
    }
  }

  function JoinRaw(parts: seq<Inline>): string {
    if parts == [] then "" else (if parts[0].Text? then parts[0].raw else "") + JoinRaw(parts[1..])
  }

  // ---- blocks ---------------------------------------------------------------------------------

  function Emphasised(value: string): string {
    if value == "" then "" else Tag("italic") + (value + Tag("/italic"))
  }

  function Paragraph(value: string, emphasis: bool): Block {
    Block("paragraph", [Text(if emphasis then Emphasised(value) else value)], false)
  }

  predicate IsPlaceholder(blocks: seq<Block>) {
    |blocks| == 1 && blocks[0].node == "paragraph" && Strip(JoinRaw(blocks[0].parts)) == SECTION_PLACEHOLDER
  }

  lemma {:induction false} OneText(raw: string)
    ensures JoinRaw([Text(raw)]) == raw
  {
    assert JoinRaw([Text(raw)]) == raw + "";
  }

  /** Words in emphasis read as the words. */
  lemma {:induction false} ItalicStrips(value: string)
    ensures Strip(Tag("italic") + value) == Strip(value)
  {
    StripTag("italic", value);
  }

  lemma {:induction false} EndStrips()
    ensures Strip(Tag("/italic")) == ""
  {
    StripTag("/italic", "");
    assert Tag("/italic") + "" == Tag("/italic");
  }

  lemma {:induction false} EmphasisStrips(value: string)
    requires Plain(value)
    ensures Strip(Emphasised(value)) == value
  {
    if value != "" {
      ItalicStrips(value + Tag("/italic"));
      StripPlain(value, Tag("/italic"));
      EndStrips();
    }
  }

  lemma {:induction false} PlaceholderIsPlain()
    ensures Plain(SECTION_PLACEHOLDER) && SECTION_PLACEHOLDER != ""
  {
    var does, will := "Analysing this upload. ", "Its summary will appear here.";
    FirstSentencePlain();
    SecondSentencePlain();
    TwoSentences();
  }

  lemma {:induction false} TwoSentences()
    ensures SECTION_PLACEHOLDER == "Analysing this upload. " + "Its summary will appear here."
  {
  }

  lemma {:induction false} FirstSentencePlain()
    ensures Plain("Analysing this upload. ")
  {
  }

  lemma {:induction false} SecondSentencePlain()
    ensures Plain("Its summary will appear here.")
  {
  }

  /** What the gateway puts in a section to wait is what it later takes for a placeholder. */
  lemma {:induction false} PlaceholderRecognised()
    ensures IsPlaceholder([Paragraph(SECTION_PLACEHOLDER, true)])
  {
    PlaceholderIsPlain();
    EmphasisStrips(SECTION_PLACEHOLDER);
    OneText(Emphasised(SECTION_PLACEHOLDER));
  }

  /**
   * A person's words without a `<`, in the placeholder's place, are not taken for one, unless they are its very words
   * in a paragraph.
   */
  lemma {:induction false} PlainWordsAreNoPlaceholder(node: string, words: string, touched: bool)
    requires Plain(words)
    ensures IsPlaceholder([Block(node, [Text(Emphasised(words))], touched)])
       <==> node == "paragraph" && words == SECTION_PLACEHOLDER
  {
    EmphasisStrips(words);
    OneText(Emphasised(words));
  }

  /** But words in angle brackets are not seen: typed into the placeholder, they leave it a placeholder. */
  lemma {:induction false} TagLikeWordsAreUnseen(words: string)
    requires words != "" && forall i | 0 <= i < |words| :: words[i] != '>'
    ensures IsPlaceholder([Paragraph(SECTION_PLACEHOLDER + Tag(words), true).(touched := true)])
  {
    var typed, end := SECTION_PLACEHOLDER + Tag(words), Tag("/italic");
    PlaceholderIsPlain();
    ItalicStrips(typed + end);
    Assoc(SECTION_PLACEHOLDER, Tag(words), end);
    StripPlain(SECTION_PLACEHOLDER, Tag(words) + end);
    StripTag(words, end);
    EndStrips();
    OneText(Emphasised(typed));
  }

  // ---- finding, creating and filling sections ---------------------------------------------------

  predicate IsSection(top: Top, id: Id) { top.Section? && top.id == id }

  /** The first section of an upload. */
  function Find(notes: seq<Top>, id: Id): (at: Option<nat>)
    ensures at.Some? ==> at.value < |notes| && IsSection(notes[at.value], id)
    ensures at.Some? ==> forall i | 0 <= i < at.value :: !IsSection(notes[i], id)
    ensures at.None? ==> forall i | 0 <= i < |notes| :: !IsSection(notes[i], id)
  {
    if notes == [] then None
    else if IsSection(notes[0], id) then Some(0)
    else match Find(notes[1..], id) case None => None case Some(i) => Some(i + 1)
  }

  method FindSection(notes: seq<Top>, id: Id) returns (at: Option<nat>)
    ensures at == Find(notes, id)
  {
    for i := 0 to |notes|
      invariant forall k | 0 <= k < i :: !IsSection(notes[k], id)
    {
      if IsSection(notes[i], id) {
        return Some(i);
      }
    }
    return None;
  }

  function Create(id: Id, title: string, status: Status, blocks: seq<Block>): Top {
    Section(id, title, status, if blocks != [] then blocks else [Paragraph(SECTION_PLACEHOLDER, true)])
  }

  datatype Filled = Replaced | Appended

  /** `fillSection`: results take an untouched placeholder's place, and otherwise go after what is there. */
  function Fill(section: Top, blocks: seq<Block>, status: Status): (Top, Filled)
    requires section.Section?
  {
    var waiting := IsPlaceholder(section.blocks);
    (section.(status := status, blocks := if blocks != [] && waiting then blocks else section.blocks + blocks),
     if waiting then Replaced else Appended)
  }
}
