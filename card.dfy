/** A flashcard: a question, its answer and an identifier, all fixed when the
    card is made. The datatype's constructor `Card(uuid, question, answer)` is
    the Java constructor `Card(question, answer)` with the identifier that
    `UUID.randomUUID()` would draw passed in; being a value, a card has no
    operation that writes a field afterwards. `getQuestion` and `getAnswer`
    are the destructors `question` and `answer`. */
module Cards {
  import opened Wrappers
  import opened Identifiers

  datatype Card = Card(uuid: Uuid, question: string, answer: string)
  {
    /** The identifier's text form; it reads back as exactly this card's identifier. */
    function GetUuid(): (r: string)
      ensures |r| == 36
      ensures Parse(r) == Some(uuid)
    {
      RenderParse(uuid);
      Render(uuid)
    }

    /** The display form: three labelled lines holding question, answer and identifier. */
    function ToString(): (r: string)
      ensures |r| == |question| + |answer| + 54
      ensures r[..4] == "Qn: " && r[4..4 + |question|] == question
      ensures r[4 + |question|..10 + |question|] == "\nAns: "
      ensures r[10 + |question|..10 + |question| + |answer|] == answer
      ensures r[10 + |question| + |answer|..18 + |question| + |answer|] == "\nUUID:  "
      ensures r[18 + |question| + |answer|..] == GetUuid()
    {
      "Qn: " + question + "\nAns: " + answer + "\nUUID:  " + GetUuid()
    }
  }

  /** The index of the first line break in s, or |s| when there is none. */
  function FirstNewline(s: string): (i: nat)
    ensures i <= |s|
  {
    if s == [] || s[0] == '\n' then 0 else 1 + FirstNewline(s[1..])
  }

  /** A line break right after a prefix without one is the first line break. */
  lemma {:induction false} NewlineAfterPrefix(prefix: string, rest: string)
    requires '\n' !in prefix
    requires rest != [] && rest[0] == '\n'
    ensures FirstNewline(prefix + rest) == |prefix|
  {
    if prefix != [] {
      assert (prefix + rest)[1..] == prefix[1..] + rest;
      NewlineAfterPrefix(prefix[1..], rest);
    }
  }

  /** When questions hold no line break, the display form determines the card:
      the first line break ends the question, and the fixed-width identifier
      at the end fixes where the answer stops. */
  lemma ToStringInjective(c1: Card, c2: Card)
    requires '\n' !in c1.question && '\n' !in c2.question
    requires c1.ToString() == c2.ToString()
    ensures c1 == c2
  {
    var r := c1.ToString();
    var q1, q2 := c1.question, c2.question;
    NewlineAfterPrefix("Qn: " + q1, r[4 + |q1|..]);
    assert r == ("Qn: " + q1) + r[4 + |q1|..];
    NewlineAfterPrefix("Qn: " + q2, r[4 + |q2|..]);
    assert r == ("Qn: " + q2) + r[4 + |q2|..];
    assert c1.answer == c2.answer;
    assert c1.GetUuid() == c2.GetUuid();
    RenderInjective(c1.uuid, c2.uuid);
  }

  /** Without that condition the display form is ambiguous: the same text
      shows two different cards. */
  lemma ToStringAmbiguous(u: Uuid)
    ensures Card(u, "x\nAns: y", "z").ToString() == Card(u, "x", "y\nAns: z").ToString()
    ensures Card(u, "x\nAns: y", "z") != Card(u, "x", "y\nAns: z")
  {
  }
}
