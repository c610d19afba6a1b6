/** The client's side of JsonReader: a current token and a queue of tokens to come. */
module EventViews {
  import opened Base
  import opened JsonTokens
  import opened JsonReaderSpec

  /** `str` is stale when the current token carries no text: the reader keeps the old one.
      `depth` counts the containers still open, the reader's mode stack. */
  datatype View = View(token: JsonToken, str: bytes, num: int, depth: int, pending: seq<Event>)

  ghost function ViewOf(s: ReaderState): View {
    View(s.token, s.str, s.num, |s.stack|, Events(s))
  }

  function DepthChange(token: JsonToken): int {
    match token
    case StartArrayToken => 1
    case StartObjectToken => 1
    case EndArrayToken => -1
    case EndObjectToken => -1
    case _ => 0
  }

  /** Reading `e`. */
  function Show(v: View, e: Event, pending: seq<Event>): View {
    View(TokenOf(e),
         match e
         case PropertyName(s) => s
         case String(s) => s
         case Integer(_, text) => text
         case Float(text) => text
         case _ => v.str,
         if e.Integer? then e.num else v.num,
         v.depth + DepthChange(TokenOf(e)),
         pending)
  }

  /** One token further, if there is one. */
  function NextView(v: View): Option<View> {
    if v.pending == [] then None
    else Some(Show(v, v.pending[0], v.pending[1..]))
  }

  /** JsonReader::Next is the token queue's head and tail. */
  lemma NextTakesHead(s: ReaderState)
    ensures Next(s).ok == NextView(ViewOf(s)).Some?
    ensures Next(s).ok ==> ViewOf(Next(s).state) == NextView(ViewOf(s)).value
  {
    var r := Next(s);
    if r.ok {
      NextKeeps(s);
      assert Events(s)[1..] == Events(r.state);
    }
  }

  /** What a successful call leaves alone: text and number of the tokens that carry none, and
      the mode stack except under brackets. */
  predicate Keeps(s: ReaderState, t: ReaderState) {
    && t.token != NoToken
    && (t.token !in {PropertyNameToken, StringToken, IntegerToken, FloatToken} ==> t.str == s.str)
    && (t.token != IntegerToken ==> t.num == s.num)
    && |t.stack| == |s.stack| + DepthChange(t.token)
  }

  lemma ReadValueKeeps(s: ReaderState, ch: byte)
    requires ReadValue(s, ch).ok
    ensures Keeps(s, ReadValue(s, ch).state)
  {
  }

  lemma NextKeeps(s: ReaderState)
    requires Next(s).ok
    ensures Keeps(s, Next(s).state)
  {
    var found := SkipWhitespace(s.rest);
    var s1 := s.(rest := found.rest);
    match s.mode
    case DocumentStart =>
      ReadValueKeeps(s1, found.ch);
    case ArrayMode =>
      if s.token == StartArrayToken && found.ch != ']' as int {
        ReadValueKeeps(s1, found.ch);
      } else if found.ch == ',' as int {
        var second := SkipWhitespace(found.rest);
        ReadValueKeeps(s1.(rest := second.rest), second.ch);
      }
    case ObjectMode =>
      if s.token == PropertyNameToken {
        ReadValueKeeps(s1, found.ch);
      }
  }
}
