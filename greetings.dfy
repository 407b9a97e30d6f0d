/** The greeting and farewell tools: fixed templates, no state, no failure. */
module Greetings {
  import opened Wrappers

  const DefaultName := "There"

  /** `say_hello(name="There")`: the greeting template around the name, which
      can be read back out of the reply. */
  function SayHello(name: Option<string>): (r: string)
    ensures |r| == |name.GetOr(DefaultName)| + 8
    ensures r[..7] == "Hello, " && r[|r| - 1] == '!'
    ensures r[7..|r| - 1] == name.GetOr(DefaultName)
  {
    "Hello, " + name.GetOr(DefaultName) + "!"
  }

  /** `say_goodbye()`: a fixed farewell, whatever the session. */
  function SayGoodbye(): (r: string)
    ensures r == "Goodbye! Have a great day."
  {
    "Goodbye! Have a great day."
  }

  /** Distinct names give distinct greetings, and no greeting is the farewell. */
  lemma GreetingsDistinct(a: Option<string>, b: Option<string>)
    ensures a.GetOr(DefaultName) != b.GetOr(DefaultName) ==> SayHello(a) != SayHello(b)
    ensures SayHello(a) != SayGoodbye()
  {
    assert SayHello(a)[0] == 'H';
    assert SayGoodbye()[0] == 'G';
  }
}
