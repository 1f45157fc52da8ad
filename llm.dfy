/**
 * The language-model service (llm-service/index.js, llm-service/prompts.js): the
 * conversation each endpoint sends to the model and the clean-up of the model's reply.
 * The model call itself is not modelled: its reply is a parameter.
 */
module Llm {
  import opened Wrappers
  import opened Text
  import Stats

  datatype Message = Message(role: string, content: string)

  const SystemPrompt: string :=
    "you are an inner voice. respond with ONE short fragment only.\n\nrules:\n- maximum 6 words\n"
    + "- lowercase only\n- no punctuation\n- no emojis\n- be poetic and introspective\n\n"
    + "examples of good responses:\n- maybe thats the point\n- i keep forgetting\n"
    + "- silence feels heavy tonight\n- what if im wrong\n- the edges blur again"

  const Starters: seq<string> := [
    "what am i doing here",
    "sometimes i wonder if anyone really listens",
    "the silence is loud tonight",
    "maybe this is enough",
    "i keep forgetting what i was thinking",
    "do thoughts have weight",
    "another loop another chance",
    "the edges are blurring again"
  ]

  /** How many history entries the monologue prompt keeps. */
  const MonologueWindow: nat := 10
  const MonologueLead: string := "continue this inner monologue:\n\n"
  const Fallback: string := "the words escape me"

  const SystemMessage: Message := Message("system", SystemPrompt)

  /** `getRandomStarter`; `pick` stands for the draw of `Math.random()`. */
  function StarterAt(pick: real): (s: string)
    requires 0.0 <= pick < 1.0
    ensures s in Starters && |s| > 0
  {
    Starters[Stats.PickIndex(pick, |Starters|)]
  }

  // ---------------------------------------------------------------------------
  // /chat
  // ---------------------------------------------------------------------------

  /** The `/chat` conversation; a body without `messages` sends none. */
  function ChatConversation(messages: Option<seq<Message>>): (c: seq<Message>)
    ensures var m := messages.GetOr([]);
      && |c| == |m| + 1 && c[0] == SystemMessage
      && forall i :: 0 <= i < |m| ==> c[i + 1] == m[i]
  {
    [SystemMessage] + messages.GetOr([])
  }

  /** The `/chat` reply: lower-cased, then one final '.', '!' or '?' dropped. */
  function ChatReply(response: string): string
  {
    DropFinalMark(Lower(response))
  }

  /**
   * The `/chat` reply is the lower-cased response, shortened by at most one character,
   * and only when that character was a final mark; it holds no upper-case letter.
   */
  lemma ChatReplyShape(response: string)
    ensures var r := ChatReply(response);
      && r == Lower(response)[..|r|]
      && (|r| == |response| || (|r| == |response| - 1 && IsFinalMark(response[|response| - 1])))
      && forall i :: 0 <= i < |r| ==> !IsUpper(r[i])
  {
    DropFinalMarkShape(Lower(response));
  }

  /** A response that already follows the prompt's rules is passed on unchanged. */
  lemma ChatReplyKeepsConformingText(response: string)
    requires forall i :: 0 <= i < |response| ==> !IsUpper(response[i])
    requires |response| == 0 || !IsFinalMark(response[|response| - 1])
    ensures ChatReply(response) == response
  {
    assert Lower(response) == response;
  }

  // ---------------------------------------------------------------------------
  // /monologue
  // ---------------------------------------------------------------------------

  /** What `/monologue` does before any reply: answer with a starter, or ask the model. */
  datatype Request = Starter(text: string) | Ask(conversation: seq<Message>)

  /** The last ten history entries, one per line. */
  function RecentHistory(history: seq<string>): string
  {
    Join(Stats.Last(history, MonologueWindow))
  }

  /** `/monologue` up to the model call; `pick` is the starter draw. */
  function MonologueRequest(history: Option<seq<string>>, pick: real): Request
    requires 0.0 <= pick < 1.0
  {
    var h := history.GetOr([]);
    if |h| == 0 then Starter(StarterAt(pick))
    else Ask([SystemMessage, Message("user", MonologueLead + RecentHistory(h))])
  }

  /**
   * An empty or missing history is answered with a starter and the model is not asked;
   * otherwise the model gets the system prompt and one user message that holds exactly
   * the last ten entries (all of them when there are fewer), in order: splitting the text
   * after the lead at its newlines gives those entries back when none holds a newline.
   */
  lemma MonologueUsesRecentHistory(history: Option<seq<string>>, pick: real)
    requires 0.0 <= pick < 1.0
    ensures var h, q := history.GetOr([]), MonologueRequest(history, pick);
      && (q.Starter? <==> |h| == 0)
      && (q.Starter? ==> q.text in Starters)
      && (q.Ask? ==>
            && |q.conversation| == 2 && q.conversation[0] == SystemMessage
            && q.conversation[1].role == "user"
            && var content := q.conversation[1].content;
               && |MonologueLead| <= |content| && content[..|MonologueLead|] == MonologueLead
               && ((forall k :: 0 <= k < |h| ==> NoNewline(h[k])) ==>
                     Split(content[|MonologueLead|..]) == Stats.Last(h, MonologueWindow)))
  {
    var h := history.GetOr([]);
    if |h| > 0 {
      var recent := Stats.Last(h, MonologueWindow);
      var content := MonologueLead + RecentHistory(h);
      assert content[|MonologueLead|..] == RecentHistory(h);
      if forall k :: 0 <= k < |h| ==> NoNewline(h[k]) {
        assert forall k :: 0 <= k < |recent| ==> recent[k] == h[|h| - |recent| + k];
        SplitJoin(recent);
      }
    }
  }

  /** The `/monologue` reply: trimmed, lower-cased, one final mark dropped, never empty. */
  function MonologueReply(response: string): string
  {
    var cleaned := DropFinalMark(Lower(Trim(response)));
    if cleaned == "" then Fallback else cleaned
  }

  /**
   * The `/monologue` reply is never empty. It is the fallback whenever the trimmed
   * response is empty or a lone final mark (a response whose own cleaned text equals the
   * fallback gives it too); otherwise it is the trimmed, lower-cased response, shortened
   * by at most a final mark, and it starts with no white space.
   */
  lemma MonologueReplyShape(response: string)
    ensures var r, t := MonologueReply(response), Lower(Trim(response));
      && |r| > 0
      && (r == Fallback <== |t| == 0 || (|t| == 1 && IsFinalMark(t[0])))
      && (|t| > 1 || (|t| == 1 && !IsFinalMark(t[0])) ==>
            && r == t[..|r|] && (|r| == |t| || |r| == |t| - 1)
            && !IsSpace(r[0]))
  {
    var t := Lower(Trim(response));
    DropFinalMarkShape(t);
    TrimEnds(response);
    if |t| > 0 {
      assert t[0] == LowerChar(Trim(response)[0]);
    }
  }
}
