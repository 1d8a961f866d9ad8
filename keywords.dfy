/**
 * The chat responder of the message handler (index.cjs:194-228, 255-264): the
 * keyword table, the first-key-wins search over the lower-cased content and
 * the random choice of a reply.
 */
module Keywords {
  import opened Wrappers
  import opened Text

  /** The number of keywords in the `responses` object. */
  const KeywordCount := |Keys|

  /**
   * The keys of the `responses` object in order. They are all non-numeric
   * strings, so `for...in` visits them in this insertion order.
   */
  const Keys: seq<string> := [
    "hello",
    "hi",
    "goodbye",
    "thanks",
    "help",
    "morning",
    "afternoon",
    "night",
    "strong",
    "beautiful",
    "happy",
    "inspire",
    "motivate",
    "sick",
    "stressed",
    "tired",
    "are you real",
    "do you dream",
    "meaning of life",
    "favorite color",
    "appreciation",
    "how was your day",
    "tell me about yourself",
    "do you have hobbies",
    "what do you like",
    "joke",
    "suggest",
    "bored",
    "tell me a joke",
    "how are you",
    "remind me",
    "why",
    "how"
  ]

  /**
   * The `i`-th key. Every key is at least two characters long and has no
   * upper-case letter, so it can occur in the lower-cased content.
   */
  function Key(i: nat): (r: string)
    requires i < KeywordCount
    ensures |r| >= 2
  {
    Keys[i]
  }

  /** The replies listed under one keyword: a first one and the others, so never none. */
  datatype Replies = Replies(first: string, others: seq<string>)
  {
    function All(): (r: seq<string>)
      ensures |r| == 1 + |others| && r[0] == first && r[1..] == others
    {
      [first] + others
    }
  }

  /** The replies listed under the `i`-th keyword. */
  function RepliesOf(i: nat): Replies
    requires i < KeywordCount
  {
    match i
    case 0 => Replies(
      "Hello! How can I assist you?",
      ["Hi there!",
       "Hey! What's up?",
       "Hello! How's your day going?",
       "Hi! Nice to see you!",
       "Hi! How’s it going?"])
    case 1 => Replies(
      "Hello! How can I assist you?",
      ["Hi there!",
       "Hey! What's up?",
       "Hello! How's your day going?",
       "Hi! Nice to see you!",
       "Hi! How’s it going?"])
    case 2 => Replies(
      "Goodbye! Hope to see you soon!",
      ["Take care! See you next time!",
       "Bye! Have a great day!",
       "Farewell!",
       "Bye, hope we chat again soon!"])
    case 3 => Replies(
      "You're welcome!",
      ["No problem at all!",
       "Happy to help!",
       "Anytime!",
       "You're very welcome!",
       "Glad I could assist!"])
    case 4 => Replies(
      "I'm here to help! What do you need assistance with?",
      ["How can I assist you today?",
       "Let me know how I can help!",
       "Need help? Just ask!"])
    case 5 => Replies(
      "Good morning! Hope you have a wonderful day!",
      ["Morning! How are you feeling today?",
       "Good morning! Ready to take on the day?"])
    case 6 => Replies(
      "Good afternoon! How’s your day going?",
      ["Afternoon! What have you been up to?",
       "Good afternoon! Need anything?"])
    case 7 => Replies(
      "Good night! Sweet dreams!",
      ["Sleep well!",
       "Good night! Rest up and recharge!"])
    case 8 => Replies(
      "Yes, you’re strong! Never forget it!",
      ["Strength is your superpower!",
       "Absolutely, you're unstoppable!"])
    case 9 => Replies(
      "You are beautiful inside and out!",
      ["Never doubt it; you’re amazing!",
       "Yes, you are beautiful just as you are!"])
    case 10 => Replies(
      "Happiness looks great on you!",
      ["So glad to hear you’re happy!",
       "Keep spreading those positive vibes!"])
    case 11 => Replies(
      "Believe in yourself! You are capable of amazing things.",
      ["Keep pushing forward; greatness is within you!",
       "Don't stop now; success is around the corner!"])
    case 12 => Replies(
      "Today is your day to shine!",
      ["You can do anything you set your mind to!",
       "Go out there and make a difference!"])
    case 13 => Replies(
      "Take care of yourself; rest and stay hydrated!",
      ["Get well soon!",
       "Take it easy; your health comes first!"])
    case 14 => Replies(
      "Breathe and take things one step at a time.",
      ["You got this; don’t let stress get to you!",
       "Remember to take breaks and care for yourself!"])
    case 15 => Replies(
      "Sounds like you've had a long day. Remember to rest!",
      ["Tiredness means you worked hard; take it easy!",
       "Sleep is important, so don’t skip it!"])
    case 16 => Replies(
      "As real as the code that created me!",
      ["I’m as real as you believe me to be!",
       "I’m here to help, real or not!"])
    case 17 => Replies(
      "I dream in code and commands!",
      ["Only of helping people!",
       "In a way, my dream is to be the best helper I can be!"])
    case 18 => Replies(
      "42, of course!",
      ["To help each other and make the world a better place!",
       "That’s a big question, but I think it’s about finding happiness!"])
    case 19 => Replies(
      "I’m a fan of #7289DA (Discord blue)!",
      ["I like every color! But blue is special.",
       "I’d say green, like the ones and zeroes in my code!"])
    case 20 => Replies(
      "Thank you! I appreciate you too!",
      ["I’m here because of you!",
       "Gratitude goes both ways! Thank you!"])
    case 21 => Replies(
      "It’s been great! Thanks for asking!",
      ["I’m here, always ready to help!",
       "Busy, but that’s how I like it! How was yours?"])
    case 22 => Replies(
      "I’m just a bot, here to make your day a little easier!",
      ["I’m here to help, chat, and bring some joy!",
       "I’m a friendly bot who loves helping!"])
    case 23 => Replies(
      "I enjoy helping people, chatting, and learning new things!",
      ["My hobby is bringing smiles to faces!",
       "I’m all about making life easier!"])
    case 24 => Replies(
      "I like helping you! That’s my favorite thing!",
      ["I enjoy keeping things positive!",
       "Making a difference, one chat at a time!"])
    case 25 => Replies(
      "Why don't scientists trust atoms? Because they make up everything!",
      ["I would tell you a pizza joke, but it's too cheesy!",
       "Why did the math book look sad? Because it had too many problems."])
    case 26 => Replies(
      "How about reading a book?",
      ["Maybe take a short walk outside?",
       "Why not try learning something new online?"])
    case 27 => Replies(
      "Bored? How about a quick game or a fun challenge?",
      ["I can suggest something if you like!",
       "Boredom is just a chance to get creative!"])
    case 28 => Replies(
      "Why couldn't the bicycle stand up by itself? It was two-tired!",
      ["Why did the scarecrow win an award? Because he was outstanding in his field!",
       "What do you call fake spaghetti? An impasta!"])
    case 29 => Replies(
      "I'm just a bot, but I’m here to keep you entertained!",
      ["Doing great, thanks! How about you?",
       "I’m here, ready to assist you!"])
    case 30 => Replies(
      "What would you like to be reminded about?",
      ["I can help set up a reminder!",
       "Just let me know what you need to remember!"])
    case 31 => Replies(
      "Sometimes, things just are the way they are!",
      ["Great question! I think about it too.",
       "Well, that's something we may never fully understand!"])
    case _ => Replies(
      "That's a tough one, but I believe in you!",
      ["There’s always a way!",
       "With a bit of effort and patience, anything is possible!"])
  }

  /**
   * The first keyword, from position `i` of the table on, that occurs in
   * `content` (`content.includes(keyword)`).
   */
  function KeywordFrom(content: string, i: nat): (r: Option<nat>)
    requires i <= KeywordCount
    ensures r.Some? ==> i <= r.value < KeywordCount && Contains(content, Key(r.value))
    ensures forall j :: i <= j < KeywordCount && (r.None? || j < r.value) ==> !Contains(content, Key(j))
    decreases KeywordCount - i
  {
    if i == KeywordCount then None
    else if IndexOf(content, Key(i)).Some? then Some(i)
    else KeywordFrom(content, i + 1)
  }

  /** The keyword the responder answers: the first one in table order that `content` contains. */
  function FirstKeyword(content: string): (r: Option<nat>)
    ensures r.Some? ==> r.value < KeywordCount && Contains(content, Key(r.value))
    ensures forall j :: 0 <= j < KeywordCount && (r.None? || j < r.value) ==> !Contains(content, Key(j))
  {
    KeywordFrom(content, 0)
  }

  /** The `for...in` loop over the table with its early exit on the first hit. */
  method FindKeyword(content: string) returns (k: Option<nat>)
    ensures k == FirstKeyword(content)
  {
    var i := 0;
    while i < KeywordCount
      invariant 0 <= i <= KeywordCount
      invariant KeywordFrom(content, i) == FirstKeyword(content)
    {
      if IndexOf(content, Key(i)).Some? {
        return Some(i);
      }
      i := i + 1;
    }
    return None;
  }

  /**
   * `replies[Math.floor(Math.random() * replies.length)]`, with the random draw
   * given as `roll` and reduced into range.
   */
  function Pick(replies: Replies, roll: nat): (r: string)
    ensures r in replies.All()
  {
    replies.All()[roll % |replies.All()|]
  }

  /** Every reply of a list is the one picked for some draw. */
  lemma {:induction false} EveryReplyReachable(replies: Replies, j: nat)
    requires j < |replies.All()|
    ensures exists roll: nat :: Pick(replies, roll) == replies.All()[j]
  {
    SmallRemainder(j, |replies.All()|);
    assert Pick(replies, j) == replies.All()[j];
  }

  lemma SmallRemainder(j: nat, n: nat)
    requires j < n
    ensures j % n == j
  {
  }

  /**
   * A keyword that contains an earlier keyword is never answered: whenever it
   * occurs, the earlier one occurs too and wins.
   */
  lemma {:induction false} ShadowedKeyword(content: string, a: nat, b: nat, at: nat)
    requires a < b < KeywordCount
    requires OccursAt(Key(b), Key(a), at)
    ensures FirstKeyword(content) != Some(b)
  {
    var r := FirstKeyword(content);
    if r == Some(b) {
      var i: nat :| OccursAt(content, Key(b), i);
      OccursInside(content, Key(b), Key(a), i, at);
    }
  }

  /** `joke` comes before `tell me a joke`, so the replies of the latter are never sent. */
  lemma TellMeAJokeUnreachable(content: string)
    ensures Key(25) == "joke" && Key(28) == "tell me a joke"
    ensures FirstKeyword(content) != Some(28)
  {
    JokeInTellMeAJoke();
    ShadowedKeyword(content, 25, 28, 10);
  }

  lemma JokeInTellMeAJoke()
    ensures Key(25) == "joke" && Key(28) == "tell me a joke"
    ensures OccursAt(Key(28), Key(25), 10)
  {
    assert Key(28)[10..14] == "joke";
  }

  /** Keywords match anywhere, even inside a word: `this` is answered as `hi`. */
  lemma HiInsideAWord()
    ensures FirstKeyword("this") == Some(1)
  {
    assert Key(0) == "hello" && Key(1) == "hi";
    assert OccursAt("this", "hi", 1);
  }
}
