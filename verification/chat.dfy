/** Chat bodies: messages, the text in them and their token estimate, after
    internal/compression/compression.go. */
module Chat {
  import opened Seqs

  /** A content block: its type, its text if that is a string, its image URL, and the rest. */
  datatype Part = Part(kind: string, text: Option<string>, url: string, rest: string) | NotPart(raw: string)

  datatype Content = Text(text: string) | Blocks(parts: seq<Part>) | NoText(raw: string)

  /** A message: its type and role ("" when absent), its content and the rest. */
  datatype Message = Message(kind: string, role: string, content: Content, rest: string) | NotMessage(raw: string)

  datatype Options = Options(model: string, preserve: bool)

  const SYSTEM := "system"

  predicate HasString(m: Message) {
    m.Message? && m.content.Text?
  }

  /** A system message, which preservation protects. */
  predicate Protected(m: Message, o: Options) {
    m.Message? && o.preserve && m.role == SYSTEM
  }

  function WithText(m: Message, s: string): Message
    requires m.Message?
  {
    m.(content := Text(s))
  }

  function PartsText(parts: seq<Part>): string {
    if parts == [] then ""
    else PartsText(Init(parts)) + if Last(parts).Part? && Last(parts).text.Some? then Last(parts).text.value else ""
  }

  function ExtractText(c: Content): string {
    match c
    case Text(s) => s
    case Blocks(parts) => PartsText(parts)
    case NoText(_) => ""
  }

  /** Four characters to a token, rounded up. */
  function EstimateTokens(s: string): nat {
    (|s| + 3) / 4
  }

  function MessageTokens(m: Message): nat {
    if m.Message? then EstimateTokens(ExtractText(m.content)) else 0
  }

  function Tokens(msgs: seq<Message>): nat {
    if msgs == [] then 0 else Tokens(Init(msgs)) + MessageTokens(Last(msgs))
  }

  method TextOf(c: Content) returns (s: string)
    ensures s == ExtractText(c)
  {
    match c {
      case Text(t) => return t;
      case NoText(_) => return "";
      case Blocks(parts) =>
        s := "";
        for i := 0 to |parts|
          invariant s == PartsText(parts[..i])
        {
          assert Init(parts[..i + 1]) == parts[..i];
          if parts[i].Part? && parts[i].text.Some? {
            s := s + parts[i].text.value;
          }
        }
        assert parts[..|parts|] == parts;
    }
  }

  class Body {
    /** None when "messages" is absent or not a list. */
    var messages: Option<seq<Message>>
    const rest: string

    constructor (messages: Option<seq<Message>>, rest: string)
      ensures this.messages == messages && this.rest == rest
    {
      this.messages, this.rest := messages, rest;
    }

    function List(): seq<Message>
      reads this
    {
      if messages.None? then [] else messages.value
    }

    method Clone() returns (b: Body)
      ensures fresh(b) && b.messages == messages && b.rest == rest
    {
      b := new Body(messages, rest);
    }

    /** Stores the messages of a pass that applied; a pass that did not returns what it was given. */
    method Put(msgs: seq<Message>, applied: bool)
      requires applied || messages == Some(msgs)
      modifies this`messages
      ensures messages == Some(msgs)
    {
      if applied {
        messages := Some(msgs);
      }
    }

    method SetMessage(i: nat, m: Message)
      requires messages.Some? && i < |messages.value|
      modifies this`messages
      ensures messages == Some(old(messages.value)[i := m])
    {
      messages := Some(messages.value[i := m]);
    }

    method SnapshotTokens() returns (total: nat)
      ensures total == Tokens(List())
    {
      total := 0;
      var msgs := List();
      for i := 0 to |msgs|
        invariant total == Tokens(msgs[..i])
      {
        assert Init(msgs[..i + 1]) == msgs[..i];
        if msgs[i].Message? {
          var s := TextOf(msgs[i].content);
          total := total + EstimateTokens(s);
        }
      }
      assert msgs[..|msgs|] == msgs;
    }
  }
}
