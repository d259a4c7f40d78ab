/** The scripted study assistant: a keyword reply table and the chat transcript. */
module AIChat {
  import opened Text

  /** The seven replies the assistant can give. */
  datatype Reply = Photosynthesis | Quadratic | WorldWar | Memorize | Greeting | Thanks | Fallback

  /** The text of each reply. */
  function ReplyText(r: Reply): string {
    match r
    case Photosynthesis => "Photosynthesis is how plants make their own food! \U{1F331}\n\nHere's the simple version:\n1. Plants take in sunlight, water, and carbon dioxide (CO2)\n2. Using chlorophyll (the green stuff in leaves), they convert these into glucose (sugar) and oxygen\n3. The formula: 6CO2 + 6H2O + Light \U{2192} C6H12O6 + 6O2\n\nThink of it like cooking - plants use sunlight as their \"stove\" to cook up their food!"
    case Quadratic => "Quadratic equations are equations with x\U{B2} in them! \U{1F4D0}\n\nTo solve ax\U{B2} + bx + c = 0, use the quadratic formula:\nx = (-b \U{B1} \U{221A}(b\U{B2} - 4ac)) / 2a\n\nSteps:\n1. Identify a, b, and c from your equation\n2. Plug them into the formula\n3. Calculate the discriminant (b\U{B2} - 4ac)\n4. Solve for both + and - to get two answers\n\nExample: x\U{B2} + 5x + 6 = 0\na=1, b=5, c=6\nx = (-5 \U{B1} \U{221A}(25-24)) / 2 = (-5 \U{B1} 1) / 2\nSo x = -2 or x = -3"
    case WorldWar => "World War 2 had several main causes: \U{1F30D}\n\n1. Treaty of Versailles (1919) - Germany was punished harshly after WW1, creating resentment\n2. Economic Depression - The 1930s depression caused hardship worldwide\n3. Rise of Dictators - Hitler (Germany), Mussolini (Italy), and militarists in Japan gained power\n4. Appeasement - Other countries tried to avoid war by giving in to demands\n5. Invasion of Poland (1939) - This was the final trigger that started the war\n\nRemember: Multiple factors combined to create the conditions for war!"
    case Memorize => "Here are my top tips for memorizing formulas: \U{1F9E0}\n\n1. **Understand First** - Don't just memorize, understand WHY the formula works\n2. **Use Mnemonics** - Create funny phrases or acronyms\n3. **Practice Daily** - Write formulas 5 times each day\n4. **Flashcards** - Use our flashcard feature to quiz yourself!\n5. **Apply Them** - Solve problems using the formulas\n6. **Teach Others** - Explaining to friends helps you remember\n7. **Visual Aids** - Draw diagrams or color-code parts of formulas\n\nPro tip: Review formulas right before bed - your brain consolidates memory during sleep!"
    case Greeting => "Hi there! \U{1F44B} I'm your AI Study Assistant. I'm here to help you understand topics better. Ask me about:\n- Science concepts (like photosynthesis)\n- Math problems (like quadratic equations)\n- History topics (like World War 2)\n- Study tips and techniques\n\nWhat would you like to learn about today?"
    case Thanks => "You're welcome! \U{1F60A} I'm always here to help. Keep up the great work with your studies!"
    case Fallback => "That's a great question! While I have specific knowledge about common topics like photosynthesis, quadratic equations, World War 2, and study techniques, I'd be happy to help you with those areas.\n\nFor other topics, I recommend:\n1. Breaking down the question into smaller parts\n2. Checking your textbook or class notes\n3. Discussing with your teacher or classmates\n\nIs there anything else I can help you with from my knowledge areas?"
  }

  /** The dispatch as an ordered table: the keywords of each reply, in the order they are tried. */
  const Rules: seq<(seq<string>, Reply)> := [
    (["photosynthesis"], Photosynthesis),
    (["quadratic", "equation"], Quadratic),
    (["world war", "ww2"], WorldWar),
    (["memorize", "formula"], Memorize),
    (["hello", "hi"], Greeting),
    (["thank"], Thanks)
  ]

  /** Some keyword of `keys` occurs in `text`. */
  predicate AnyIncluded(keys: seq<string>, text: string) {
    keys != [] && (Includes(text, keys[0]) || AnyIncluded(keys[1..], text))
  }

  /** The reply of the first rule with a keyword in `text`, or the fallback reply. */
  function FirstMatch(rules: seq<(seq<string>, Reply)>, text: string): Reply {
    if rules == [] then Fallback
    else if AnyIncluded(rules[0].0, text) then rules[0].1
    else FirstMatch(rules[1..], text)
  }

  /** Rule `i` decides the reply exactly when it matches and no earlier rule does. */
  lemma {:induction false} FirstMatchAt(rules: seq<(seq<string>, Reply)>, text: string, i: nat)
    requires i < |rules| && AnyIncluded(rules[i].0, text)
    requires forall j :: 0 <= j < i ==> !AnyIncluded(rules[j].0, text)
    ensures FirstMatch(rules, text) == rules[i].1
  {
    if i > 0 {
      assert !AnyIncluded(rules[0].0, text);
      FirstMatchAt(rules[1..], text, i - 1);
    }
  }

  /** When no rule matches, the fallback reply is given. */
  lemma {:induction false} NoMatchFallsBack(rules: seq<(seq<string>, Reply)>, text: string)
    requires forall j :: 0 <= j < |rules| ==> !AnyIncluded(rules[j].0, text)
    ensures FirstMatch(rules, text) == Fallback
  {
    if rules != [] {
      assert !AnyIncluded(rules[0].0, text);
      NoMatchFallsBack(rules[1..], text);
    }
  }

  /** The chain of `includes` tests of `getResponse`, on the already lower-cased message. */
  function Dispatch(lowerMessage: string): (r: Reply)
    ensures Includes(lowerMessage, "photosynthesis") ==> r == Photosynthesis
  {
    if Includes(lowerMessage, "photosynthesis") then Photosynthesis
    else if Includes(lowerMessage, "quadratic") || Includes(lowerMessage, "equation") then Quadratic
    else if Includes(lowerMessage, "world war") || Includes(lowerMessage, "ww2") then WorldWar
    else if Includes(lowerMessage, "memorize") || Includes(lowerMessage, "formula") then Memorize
    else if Includes(lowerMessage, "hello") || Includes(lowerMessage, "hi") then Greeting
    else if Includes(lowerMessage, "thank") then Thanks
    else Fallback
  }

  /** `getResponse`: lower-case the message, then dispatch on keywords. */
  function Classify(userMessage: string): Reply {
    Dispatch(Lower(userMessage))
  }

  /** A one- or two-keyword rule matches when one of its keywords occurs. */
  lemma AnyIncludedPair(a: string, b: string, text: string)
    ensures AnyIncluded([a], text) <==> Includes(text, a)
    ensures AnyIncluded([a, b], text) <==> Includes(text, a) || Includes(text, b)
  {
    assert [a][1..] == [] && [a, b][1..] == [b] && [b][1..] == [];
    assert AnyIncluded([b], text) <==> Includes(text, b);
  }

  /** The chain of tests is the first-match dispatch over the table `Rules`. */
  lemma DispatchIsFirstMatch(t: string)
    ensures Dispatch(t) == FirstMatch(Rules, t)
  {
    AnyIncludedPair("photosynthesis", "", t);
    AnyIncludedPair("quadratic", "equation", t);
    AnyIncludedPair("world war", "ww2", t);
    AnyIncludedPair("memorize", "formula", t);
    AnyIncludedPair("hello", "hi", t);
    AnyIncludedPair("thank", "", t);
    var rs := Rules;
    assert FirstMatch(rs, t) == if AnyIncluded(rs[0].0, t) then Photosynthesis else FirstMatch(rs[1..], t);
    assert FirstMatch(rs[1..], t) == if AnyIncluded(rs[1].0, t) then Quadratic else FirstMatch(rs[2..], t);
    assert FirstMatch(rs[2..], t) == if AnyIncluded(rs[2].0, t) then WorldWar else FirstMatch(rs[3..], t);
    assert FirstMatch(rs[3..], t) == if AnyIncluded(rs[3].0, t) then Memorize else FirstMatch(rs[4..], t);
    assert FirstMatch(rs[4..], t) == if AnyIncluded(rs[4].0, t) then Greeting else FirstMatch(rs[5..], t);
    assert FirstMatch(rs[5..], t) == if AnyIncluded(rs[5].0, t) then Thanks else FirstMatch(rs[6..], t);
    assert rs[6..] == [];
  }

  function GetResponse(userMessage: string): string {
    ReplyText(Classify(userMessage))
  }

  /** Matching ignores case: a message and its lower-case form get the same reply. */
  lemma CaseInsensitive(s: string)
    ensures Classify(s) == Classify(Lower(s))
  {
    LowerIdempotent(s);
  }

  /** "photosynthesis" beats every other keyword. */
  lemma PhotosynthesisWins(s: string)
    requires Includes(Lower(s), "photosynthesis")
    ensures Classify(s) == Photosynthesis
  {
  }

  /** A message with no keyword of any rule gets the fallback reply. */
  lemma NoKeywordFallsBack(s: string)
    requires forall j :: 0 <= j < |Rules| ==> !AnyIncluded(Rules[j].0, Lower(s))
    ensures Classify(s) == Fallback
  {
    DispatchIsFirstMatch(Lower(s));
    NoMatchFallsBack(Rules, Lower(s));
  }

  /** "quadratic formula" has keywords of two rules; the earlier one, quadratic, wins. */
  lemma QuadraticFormulaExample(s: string)
    requires s == "quadratic formula"
    ensures Classify(s) == Quadratic
  {
    LowerOfLower(s);
    QuadraticFormulaDispatch(s);
  }

  lemma QuadraticFormulaDispatch(s: string)
    requires s == "quadratic formula"
    ensures Dispatch(s) == Quadratic
  {
    assert !Includes(s, "photosynthesis") by { NotIncludesByFirst(s, "photosynthesis"); }
    assert Includes(s, "quadratic") by {
      IncludesSlice(s, 0, 9);
      assert s[0..9] == "quadratic";
    }
    SecondRuleDecides(s);
  }

  lemma SecondRuleDecides(t: string)
    requires !Includes(t, "photosynthesis") && Includes(t, "quadratic")
    ensures Dispatch(t) == Quadratic
  {
  }

  /** "thank you, this helped" is answered with the greeting: the "hi" in "this" is tested before
      "thank". */
  lemma ThanksAnsweredWithGreeting(s: string)
    requires s == "thank you, this helped"
    ensures Classify(s) == Greeting
  {
    LowerOfLower(s);
    ThanksDispatch(s);
  }

  lemma ThanksDispatch(s: string)
    requires s == "thank you, this helped"
    ensures Dispatch(s) == Greeting
  {
    ThanksLacks(s, "photosynthesis");
    ThanksLacks(s, "quadratic");
    ThanksLacks(s, "equation");
    ThanksLacks(s, "world war");
    ThanksLacks(s, "ww2");
    ThanksLacks(s, "memorize");
    ThanksLacks(s, "formula");
    ThanksHasHi(s);
    GreetingRuleDecides(s);
  }

  lemma ThanksLacks(s: string, k: string)
    requires s == "thank you, this helped"
    requires k in ["photosynthesis", "quadratic", "equation", "world war", "ww2", "memorize", "formula"]
    ensures !Includes(s, k)
  {
    NotIncludesByFirst(s, k);
  }

  lemma ThanksHasHi(s: string)
    requires s == "thank you, this helped"
    ensures Includes(s, "hi")
  {
    IncludesSlice(s, 12, 14);
    assert s[12..14] == "hi";
  }

  lemma GreetingRuleDecides(t: string)
    requires !Includes(t, "photosynthesis") && !Includes(t, "quadratic") && !Includes(t, "equation")
    requires !Includes(t, "world war") && !Includes(t, "ww2")
    requires !Includes(t, "memorize") && !Includes(t, "formula")
    requires Includes(t, "hi")
    ensures Dispatch(t) == Greeting
  {
  }

  datatype Role = User | Assistant
  datatype Message = Message(role: Role, content: string)

  /** The contents of the user's messages, oldest first. */
  function UserContents(ms: seq<Message>): seq<string> {
    if ms == [] then []
    else UserContents(ms[..|ms| - 1]) + if ms[|ms| - 1].role == User then [ms[|ms| - 1].content] else []
  }

  /** The contents of the assistant's messages, oldest first. */
  function AssistantContents(ms: seq<Message>): seq<string> {
    if ms == [] then []
    else AssistantContents(ms[..|ms| - 1]) + if ms[|ms| - 1].role == Assistant then [ms[|ms| - 1].content] else []
  }

  /** The replies `respond` gives to a sequence of user messages, in order. */
  function Responses(respond: string -> string, us: seq<string>): seq<string> {
    if us == [] then [] else Responses(respond, us[..|us| - 1]) + [respond(us[|us| - 1])]
  }

  /** The chat hook: the transcript, the typing flag and the replies still scheduled. */
  class Chat {
    var messages: seq<Message>
    var isTyping: bool
    /** The contents whose delayed replies have not fired yet, oldest first. */
    var pending: seq<string>
    /** The reply function, `getResponse`. */
    const respond: string -> string

    /** Every user message is answered in order, the unanswered ones are exactly the pending
        replies, and the typing flag is only up while a reply is pending. */
    ghost predicate Valid()
      reads this
    {
      var us := UserContents(messages);
      && |pending| <= |us|
      && pending == us[|us| - |pending|..]
      && AssistantContents(messages) == Responses(respond, us[..|us| - |pending|])
      && (isTyping ==> pending != [])
    }

    constructor()
      ensures Valid() && messages == [] && !isTyping && pending == []
      ensures respond == GetResponse
    {
      messages, isTyping, pending := [], false, [];
      respond := GetResponse;
    }

    /** `sendMessage(content)`: the user's message is appended at once and its reply is scheduled. */
    method SendMessage(content: string)
      requires Valid()
      modifies this
      ensures Valid()
      ensures messages == old(messages) + [Message(User, content)]
      ensures isTyping && pending == old(pending) + [content]
    {
      var before := messages;
      messages := messages + [Message(User, content)];
      assert messages[..|messages| - 1] == before;
      pending := pending + [content];
      isTyping := true;
      var us := UserContents(messages);
      assert us == UserContents(before) + [content];
      assert us[..|us| - |pending|] == UserContents(before)[..|UserContents(before)| - |old(pending)|];
    }

    /** The delayed callback of the oldest pending message fires: its reply is appended and the
        typing flag drops, even when later replies are still pending. */
    method DeliverReply()
      requires Valid() && pending != []
      modifies this
      ensures Valid()
      ensures messages == old(messages) + [Message(Assistant, respond(old(pending)[0]))]
      ensures !isTyping && pending == old(pending)[1..]
    {
      var before := messages;
      var content := pending[0];
      messages := messages + [Message(Assistant, respond(content))];
      assert messages[..|messages| - 1] == before;
      var us := UserContents(before);
      assert UserContents(messages) == us;
      var answered := us[..|us| - |pending|];
      assert us[..|us| - |pending| + 1] == answered + [content];
      assert (answered + [content])[..|answered|] == answered;
      pending := pending[1..];
      isTyping := false;
    }
  }

  /** A fresh chat after one message and its delayed reply: the user's message, then the
      assistant's `getResponse` of it, with the typing flag up in between and down after. */
  method Exchange(content: string) returns (transcript: seq<Message>, typingBetween: bool, typingAfter: bool)
    ensures transcript == [Message(User, content), Message(Assistant, GetResponse(content))]
    ensures typingBetween && !typingAfter
  {
    var chat := new Chat();
    chat.SendMessage(content);
    typingBetween := chat.isTyping;
    chat.DeliverReply();
    typingAfter := chat.isTyping;
    transcript := chat.messages;
  }
}
