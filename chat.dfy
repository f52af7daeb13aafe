/** The assistant chat page: sending a message, the simulated reply chosen by a
    first-match keyword rule over the lower-cased query, and the archive rules of "new
    chat" and of opening a past session. */
module Chat {
  import opened Wrappers
  import opened Text

  // ---------------------------------------------------------------------------
  // Messages and sessions

  datatype Role = User | Assistant

  /** A message body: plain text, or one of the two replies drawn as markup (the
      investment plans, in Hindi or English, and the bank contact list). */
  datatype Content = Plain(text: string) | InvestmentPlans(hindi: bool) | BankContacts

  /** The timestamp is a clock reading and is not kept. */
  datatype Message = Message(id: int, role: Role, content: Content)

  /** The date is a clock reading and is not kept. */
  datatype Session = Session(id: int, title: string, messages: seq<Message>)

  const WelcomeText := "Namaste! I'm your FinCoach. I can help you plan investments, check loan eligibility, or find the best bank for your needs. How can I help you today?"

  function Welcome(id: int): Message {
    Message(id, Assistant, Plain(WelcomeText))
  }

  const InitialSessions: seq<Session> := [
    Session(1, "Investment Advice", [
      Message(1, User, Plain("What are good mutual funds?")),
      Message(2, Assistant, Plain("For long term growth, index funds are reliable. Consider HDFC Index Fund or SBI Nifty 50."))
    ]),
    Session(2, "Home Loan Rates", [
      Message(1, User, Plain("Best home loan rates?")),
      Message(2, Assistant, Plain("Currently, SBI and HDFC offer competitive rates starting at 8.4% p.a."))
    ])
  ]

  // ---------------------------------------------------------------------------
  // The keyword responder

  datatype Topic = Greeting | Weather | Joke | Investment | Contact | Loan | Fallback

  /** The keyword groups in the order the responder tests them, and the topic of each. */
  const Keywords: seq<seq<string>> := [
    ["hello", "hi", "namaste"],
    ["weather", "news"],
    ["joke"],
    ["invest", "stock", "fund", "sip"],
    ["contact", "support", "bank"],
    ["loan"]
  ]

  const Topics: seq<Topic> := [Greeting, Weather, Joke, Investment, Contact, Loan]

  /** The chain of tests of the responder, on an already lower-cased query. */
  function TopicOf(q: string): Topic {
    if Contains(q, "hello") || Contains(q, "hi") || Contains(q, "namaste") then Greeting
    else if Contains(q, "weather") || Contains(q, "news") then Weather
    else if Contains(q, "joke") then Joke
    else if Contains(q, "invest") || Contains(q, "stock") || Contains(q, "fund") || Contains(q, "sip")
    then Investment
    else if Contains(q, "contact") || Contains(q, "support") || Contains(q, "bank") then Contact
    else if Contains(q, "loan") then Loan
    else Fallback
  }

  predicate MatchesAny(q: string, words: seq<string>) {
    exists i :: 0 <= i < |words| && Contains(q, words[i])
  }

  /** The index of the first keyword group that matches, or the number of groups when
      none does: a reference definition of first-match dispatch. */
  function FirstMatch(q: string, rules: seq<seq<string>>): (k: nat)
    ensures k <= |rules|
    ensures k < |rules| ==> MatchesAny(q, rules[k])
    ensures forall j :: 0 <= j < k ==> !MatchesAny(q, rules[j])
  {
    if rules == [] then 0
    else if MatchesAny(q, rules[0]) then 0
    else 1 + FirstMatch(q, rules[1..])
  }

  function TopicAt(k: nat): Topic {
    if k < |Topics| then Topics[k] else Fallback
  }

  lemma MatchesAny1(q: string, a: string)
    ensures MatchesAny(q, [a]) <==> Contains(q, a)
  {
    if Contains(q, a) {
      assert [a][0] == a;
    }
  }

  lemma MatchesAny2(q: string, a: string, b: string)
    ensures MatchesAny(q, [a, b]) <==> Contains(q, a) || Contains(q, b)
  {
    if Contains(q, a) {
      assert [a, b][0] == a;
    } else if Contains(q, b) {
      assert [a, b][1] == b;
    }
  }

  lemma MatchesAny3(q: string, a: string, b: string, c: string)
    ensures MatchesAny(q, [a, b, c]) <==> Contains(q, a) || Contains(q, b) || Contains(q, c)
  {
    if Contains(q, a) {
      assert [a, b, c][0] == a;
    } else if Contains(q, b) {
      assert [a, b, c][1] == b;
    } else if Contains(q, c) {
      assert [a, b, c][2] == c;
    }
  }

  lemma MatchesAny4(q: string, a: string, b: string, c: string, d: string)
    ensures MatchesAny(q, [a, b, c, d]) <==>
      Contains(q, a) || Contains(q, b) || Contains(q, c) || Contains(q, d)
  {
    if Contains(q, a) {
      assert [a, b, c, d][0] == a;
    } else if Contains(q, b) {
      assert [a, b, c, d][1] == b;
    } else if Contains(q, c) {
      assert [a, b, c, d][2] == c;
    } else if Contains(q, d) {
      assert [a, b, c, d][3] == d;
    }
  }

  /** The responder's chain is first-match dispatch over the keyword groups in order:
      the topic is that of the first group with a keyword in the query, and the fallback
      when no group has one. */
  lemma TopicOfIsFirstMatch(q: string)
    ensures TopicOf(q) == TopicAt(FirstMatch(q, Keywords))
  {
    MatchesAny3(q, "hello", "hi", "namaste");
    MatchesAny2(q, "weather", "news");
    MatchesAny1(q, "joke");
    MatchesAny4(q, "invest", "stock", "fund", "sip");
    MatchesAny3(q, "contact", "support", "bank");
    MatchesAny1(q, "loan");
    var k := FirstMatch(q, Keywords);
    assert Keywords[0] == ["hello", "hi", "namaste"] && Keywords[1] == ["weather", "news"];
    assert Keywords[2] == ["joke"] && Keywords[3] == ["invest", "stock", "fund", "sip"];
    assert Keywords[4] == ["contact", "support", "bank"] && Keywords[5] == ["loan"];
    assert |Keywords| == 6 && |Topics| == 6;
  }

  const Greetings: map<string, string> := map[
    "hi" := "नमस्ते! मैं आपकी कैसे मदद कर सकता हूँ?",
    "es" := "¡Hola! ¿Cómo puedo ayudarte hoy?",
    "fr" := "Bonjour! Comment puis-je vous aider?",
    "en" := "Hello! How can I assist you today?"
  ]

  const WeatherHindi := "माफ़ कीजिये, मैं केवल वित्तीय सलाह दे सकता हूँ, लेकिन बाज़ार आज ऊपर है!"
  const WeatherEnglish := "I focus on financial advice, but the market outlook is sunny today!"
  const JokeHindi := "पैसे पेड़ पर नहीं उगते... जब तक कि आपने 'Money Plant' न लगाया हो! 😄"
  const JokeEnglish := "Why did the banker break up with the calculator? She felt he was just using her! 😄"
  const LoanText := "Based on your profile, you have high eligibility for a Personal Loan up to ₹5 Lakhs at 10.5% interest from HDFC Bank. Would you like to apply?"
  const FallbackText := "I understand. Could you clarify if you want to know about Investment Plans (SIP/Mutual Funds), Loan Eligibility, or Saving Strategies? I can provide detailed bank comparisons."

  /** The reply for a topic in the current language. A language with no greeting of its
      own gets the English one (every greeting is non-empty, so `||` falls back only for
      a missing entry). */
  function Reply(topic: Topic, lang: string): Content {
    match topic
    case Greeting => Plain(if lang in Greetings then Greetings[lang] else Greetings["en"])
    case Weather => Plain(if lang == "hi" then WeatherHindi else WeatherEnglish)
    case Joke => Plain(if lang == "hi" then JokeHindi else JokeEnglish)
    case Investment => InvestmentPlans(lang == "hi")
    case Contact => BankContacts
    case Loan => Plain(LoanText)
    case Fallback => Plain(FallbackText)
  }

  /** `generateResponse(query)` under the language `lang`. */
  function GenerateResponse(query: string, lang: string): Content {
    Reply(TopicOf(ToLower(query)), lang)
  }

  /** The reply does not depend on the case of the query. */
  lemma ResponseIgnoresCase(query: string, lang: string)
    ensures GenerateResponse(ToLower(query), lang) == GenerateResponse(query, lang)
  {
    ToLowerIdempotent(query);
  }

  /** Greetings: the current language's entry, the English one otherwise (Bengali, for
      instance); the weather and joke replies are in Hindi exactly for 'hi'. */
  lemma ReplyLanguages(lang: string)
    ensures lang in Greetings ==> Reply(Greeting, lang) == Plain(Greetings[lang])
    ensures lang !in Greetings ==> Reply(Greeting, lang) == Plain("Hello! How can I assist you today?")
    ensures Reply(Greeting, "bn") == Plain("Hello! How can I assist you today?")
    ensures Reply(Weather, lang) == Plain(WeatherHindi) <==> lang == "hi"
    ensures Reply(Joke, lang) == Plain(JokeHindi) <==> lang == "hi"
    ensures Reply(Investment, lang).hindi <==> lang == "hi"
  {
    assert |WeatherEnglish| != |WeatherHindi|;
    assert |JokeEnglish| != |JokeHindi|;
  }

  /** Matching is by substring, and greetings are checked first: "this fund" contains
      "hi" and is answered with a greeting, not with investment plans. */
  lemma SubstringGreetsFirst(lang: string)
    ensures GenerateResponse("this fund", lang) == Reply(Greeting, lang)
  {
    ToLowerOfLower("this fund");
    ContainsInside("t", "hi", "s fund");
    assert "t" + "hi" + "s fund" == "this fund";
  }

  /** Whatever follows it, a query that starts "Hi" (in any case) is a greeting. */
  lemma HiGreets(rest: string, lang: string)
    ensures GenerateResponse("Hi" + rest, lang) == Reply(Greeting, lang)
    ensures GenerateResponse("HI" + rest, lang) == Reply(Greeting, lang)
  {
    ToLowerAppend("Hi", rest);
    ToLowerAppend("HI", rest);
    assert ToLower("Hi") == "hi" && ToLower("HI") == "hi";
    ContainsInside("", "hi", ToLower(rest));
    assert "" + "hi" + ToLower(rest) == "hi" + ToLower(rest);
  }

  // ---------------------------------------------------------------------------
  // Archiving

  /** `currentMessages[1]?.content` as a condition: empty text is falsy, markup is not. */
  predicate Truthy(c: Content) {
    !c.Plain? || c.text != ""
  }

  /** The current conversation is archived when the user has said something in it. */
  predicate ShouldArchive(msgs: seq<Message>) {
    |msgs| > 1 && Truthy(msgs[1].content)
  }

  /** The title of an archived conversation: the first 20 characters of its second
      message and "...", or "New Chat" when that message is markup. */
  function ArchiveTitle(c: Content): (t: string)
    ensures c.Plain? ==> 3 <= |t| <= 23 && t[..|t| - 3] == Prefix(c.text, 20) && t[|t| - 3..] == "..."
    ensures !c.Plain? ==> t == "New Chat"
  {
    if c.Plain? then Prefix(c.text, 20) + "..." else "New Chat"
  }

  /** A long first message gives a title of exactly 23 characters; a short one is kept
      whole. */
  lemma ArchiveTitleLength(text: string)
    ensures |text| >= 20 ==> |ArchiveTitle(Plain(text))| == 23
    ensures |text| <= 20 ==> ArchiveTitle(Plain(text)) == text + "..."
  {
  }

  function Archived(id: int, msgs: seq<Message>): (s: Session)
    requires |msgs| > 1
    ensures s.id == id && s.messages == msgs && s.title == ArchiveTitle(msgs[1].content)
  {
    Session(id, ArchiveTitle(msgs[1].content), msgs)
  }

  /** `newer` is `older` with zero or more sessions put in front. */
  predicate Extends(newer: seq<Session>, older: seq<Session>) {
    |older| <= |newer| && newer[|newer| - |older|..] == older
  }

  lemma ExtendsTransitive(a: seq<Session>, b: seq<Session>, c: seq<Session>)
    requires Extends(a, b) && Extends(b, c)
    ensures Extends(a, c)
  {
    assert a[|a| - |c|..] == a[|a| - |b|..][|b| - |c|..];
  }

  // ---------------------------------------------------------------------------
  // The page's state

  /** A reply that is on its way: the query and the language it was sent under. */
  datatype PendingReply = PendingReply(query: string, lang: string)

  class ChatPage {
    var input: string
    var isTyping: bool
    var sessions: seq<Session>
    var currentSessionId: Option<int>
    var currentMessages: seq<Message>
    var pendingReply: Option<PendingReply>

    /** The send button is disabled while a reply is on its way, so at most one is, and
        the typing indicator shows exactly while it is. */
    ghost predicate Valid()
      reads this
    {
      isTyping <==> pendingReply.Some?
    }

    constructor ()
      ensures Valid()
      ensures input == "" && !isTyping && sessions == InitialSessions
      ensures currentSessionId == None && currentMessages == [Welcome(1)]
      ensures pendingReply == None
    {
      input, isTyping, sessions := "", false, InitialSessions;
      currentSessionId, currentMessages, pendingReply := None, [Welcome(1)], None;
    }

    /** Typing or dictating into the input. */
    method SetInput(text: string)
      requires Valid()
      modifies this
      ensures Valid()
      ensures input == text
      ensures isTyping == old(isTyping) && sessions == old(sessions)
      ensures currentSessionId == old(currentSessionId)
      ensures currentMessages == old(currentMessages) && pendingReply == old(pendingReply)
    {
      input := text;
    }

    /** Submitting the form. Blank input, or a reply still on its way (the button is
        disabled then), changes nothing. Otherwise exactly one user message with the raw
        input is appended, the input is cleared and the reply is scheduled under the
        language of the moment. */
    method Send(freshId: int, lang: string)
      requires Valid()
      modifies this
      ensures Valid()
      ensures IsBlank(old(input)) || old(isTyping) ==>
        && input == old(input) && isTyping == old(isTyping)
        && currentMessages == old(currentMessages) && pendingReply == old(pendingReply)
      ensures !IsBlank(old(input)) && !old(isTyping) ==>
        && currentMessages == old(currentMessages) + [Message(freshId, User, Plain(old(input)))]
        && input == "" && isTyping
        && pendingReply == Some(PendingReply(old(input), lang))
      ensures sessions == old(sessions) && currentSessionId == old(currentSessionId)
    {
      TrimEmptyIff(input);
      if Trim(input) == [] || isTyping {
        return;
      }
      var message := Message(freshId, User, Plain(input));
      currentMessages := currentMessages + [message];
      pendingReply := Some(PendingReply(input, lang));
      input := "";
      isTyping := true;
    }

    /** The simulated reply arrives: exactly one assistant message, computed from the
        query that was sent, is appended to whatever conversation is showing now. */
    method ReplyArrives(freshId: int)
      requires Valid() && pendingReply.Some?
      modifies this
      ensures Valid()
      ensures currentMessages == old(currentMessages) + [Message(freshId, Assistant,
        GenerateResponse(old(pendingReply).value.query, old(pendingReply).value.lang))]
      ensures !isTyping && pendingReply == None
      ensures input == old(input) && sessions == old(sessions)
      ensures currentSessionId == old(currentSessionId)
    {
      var p := pendingReply.value;
      var reply := Message(freshId, Assistant, GenerateResponse(p.query, p.lang));
      currentMessages := currentMessages + [reply];
      pendingReply := None;
      isTyping := false;
    }

    /** "New chat": the current conversation is archived in front of the history when the
        user has said something in it; the page then shows only the welcome message and
        no session is selected. */
    method StartNewChat(freshId: int)
      requires Valid()
      modifies this
      ensures Valid()
      ensures ShouldArchive(old(currentMessages)) ==>
        sessions == [Archived(freshId, old(currentMessages))] + old(sessions)
      ensures !ShouldArchive(old(currentMessages)) ==> sessions == old(sessions)
      ensures Extends(sessions, old(sessions))
      ensures currentMessages == [Welcome(freshId)] && currentSessionId == None
      ensures input == old(input) && isTyping == old(isTyping)
      ensures pendingReply == old(pendingReply)
    {
      if ShouldArchive(currentMessages) {
        var archived := Archived(freshId, currentMessages);
        sessions := [archived] + sessions;
      }
      currentMessages := [Welcome(freshId)];
      currentSessionId := None;
    }

    /** Opening a past session: the current conversation is archived first only when it
        is not itself a loaded session and the user has said something in it. */
    method LoadSession(session: Session, freshId: int)
      requires Valid()
      modifies this
      ensures Valid()
      ensures old(currentSessionId) == None && ShouldArchive(old(currentMessages)) ==>
        sessions == [Archived(freshId, old(currentMessages))] + old(sessions)
      ensures !(old(currentSessionId) == None && ShouldArchive(old(currentMessages))) ==>
        sessions == old(sessions)
      ensures Extends(sessions, old(sessions))
      ensures currentMessages == session.messages && currentSessionId == Some(session.id)
      ensures input == old(input) && isTyping == old(isTyping)
      ensures pendingReply == old(pendingReply)
    {
      if currentSessionId == None && ShouldArchive(currentMessages) {
        var archived := Archived(freshId, currentMessages);
        sessions := [archived] + sessions;
      }
      currentMessages := session.messages;
      currentSessionId := Some(session.id);
    }
  }

  /** A whole exchange: after sending a short message that starts "Hi" and the reply's
      arrival, the conversation holds the welcome, the user's text and the greeting, and
      a new chat archives it under the whole text followed by "...". */
  method Exchange(rest: string, lang: string) returns (msgs: seq<Message>, title: string)
    requires |rest| <= 18
    ensures msgs == [Welcome(1), Message(10, User, Plain("Hi" + rest)),
                     Message(11, Assistant, Reply(Greeting, lang))]
    ensures title == "Hi" + rest + "..."
  {
    var query := "Hi" + rest;
    assert query[0] == 'H';
    assert !IsBlank(query);
    HiGreets(rest, lang);
    var page := new ChatPage();
    page.SetInput(query);
    page.Send(10, lang);
    page.ReplyArrives(11);
    msgs := page.currentMessages;
    assert msgs == [Welcome(1), Message(10, User, Plain(query)),
                    Message(11, Assistant, Reply(Greeting, lang))];
    assert Truthy(msgs[1].content);
    page.StartNewChat(12);
    title := page.sessions[0].title;
  }
}
