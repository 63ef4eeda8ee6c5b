/**
 * The moderator: a fixed set of banned words, compiled into one
 * alternation pattern, and the `/check` handler built on it.
 */
module Censor {
  import opened Wrappers
  import opened Text
  import opened Http

  /** The banned words the service is constructed with. */
  const BannedWords: set<string> := {"qwerty", "йцукен", "zxvbnm"}

  /**
   * `bannedWords` is the word set; `pattern` the alternatives of the
   * compiled expression, in the order the word map was iterated. Each
   * alternative is a `regexp.QuoteMeta`-escaped word, so it matches exactly
   * the word itself.
   */
  datatype CensorService = CensorService(bannedWords: set<string>, pattern: seq<string>)

  /** `order` lists every word of `words` and nothing else: a map iteration order. */
  predicate IsEnumeration(order: seq<string>, words: set<string>) {
    && |order| == |words|
    && (forall i :: 0 <= i < |order| ==> order[i] in words)
    && (forall w :: w in words ==> w in order)
  }

  /** Builds the service; `order` is the (unspecified) iteration order of the word map. */
  function NewCensorService(order: seq<string>): (cs: CensorService)
    requires IsEnumeration(order, BannedWords)
    ensures cs.bannedWords == BannedWords
    ensures forall w :: w in cs.pattern <==> w in BannedWords
  {
    CensorService(BannedWords, order)
  }

  /** Whether the alternation of the literal words `alternatives` matches somewhere in `t`. */
  function MatchString(alternatives: seq<string>, t: string): (b: bool)
    ensures b <==> exists k :: 0 <= k < |alternatives| && Contains(t, alternatives[k])
  {
    if |alternatives| == 0 then false
    else Index(t, alternatives[0]) != -1 || MatchString(alternatives[1..], t)
  }

  /** `isBanned`: the pattern matches the lower-cased text. */
  function IsBanned(cs: CensorService, text: string): bool {
    MatchString(cs.pattern, Lower(text))
  }

  /** Every banned word is non-empty and already lower case. */
  lemma BannedWordsWellFormed()
    ensures |BannedWords| == 3
    ensures forall w :: w in BannedWords ==> |w| > 0 && IsLowerCase(w)
  {
    assert IsLowerCase("qwerty");
    assert IsLowerCase("йцукен");
    assert IsLowerCase("zxvbnm");
  }

  /** Text is banned exactly when some banned word occurs in its lower-cased form. */
  lemma IsBannedIffWordOccurs(order: seq<string>, text: string)
    requires IsEnumeration(order, BannedWords)
    ensures IsBanned(NewCensorService(order), text)
        <==> exists w :: w in BannedWords && Contains(Lower(text), w)
  {
    var cs := NewCensorService(order);
    if exists w :: w in BannedWords && Contains(Lower(text), w) {
      var w :| w in BannedWords && Contains(Lower(text), w);
      var k :| 0 <= k < |order| && order[k] == w;
      assert Contains(Lower(text), cs.pattern[k]);
    }
  }

  /** The verdict does not depend on the order in which the words were joined. */
  lemma VerdictIndependentOfOrder(order1: seq<string>, order2: seq<string>, text: string)
    requires IsEnumeration(order1, BannedWords) && IsEnumeration(order2, BannedWords)
    ensures IsBanned(NewCensorService(order1), text) == IsBanned(NewCensorService(order2), text)
  {
    IsBannedIffWordOccurs(order1, text);
    IsBannedIffWordOccurs(order2, text);
  }

  /** Matching ignores case: lower-casing the text first changes nothing. */
  lemma IsBannedIgnoresCase(cs: CensorService, text: string)
    ensures IsBanned(cs, text) == IsBanned(cs, Lower(text))
  {
    LowerIdempotent(text);
  }

  /** The empty text is never banned. */
  lemma EmptyTextNotBanned(order: seq<string>)
    requires IsEnumeration(order, BannedWords)
    ensures !IsBanned(NewCensorService(order), "")
  {
    BannedWordsWellFormed();
    IsBannedIffWordOccurs(order, "");
    forall w | w in BannedWords
      ensures !Contains(Lower(""), w)
    {
      ContainsEmpty("", w);
    }
  }

  /** Surrounding a banned text with anything keeps it banned. */
  lemma BannedSurvivesWrapping(cs: CensorService, prefix: string, text: string, suffix: string)
    requires IsBanned(cs, text)
    ensures IsBanned(cs, prefix + text + suffix)
  {
    var k :| 0 <= k < |cs.pattern| && Contains(Lower(text), cs.pattern[k]);
    LowerAppend(prefix + text, suffix);
    LowerAppend(prefix, text);
    ContainsWiden(Lower(prefix), Lower(text), Lower(suffix), cs.pattern[k]);
  }

  datatype CheckRequest = CheckRequest(text: string)

  const MsgBadBody := "Неверный формат тела запроса"
  const MsgForbidden := "Текст содержит запрещенные слова"
  const MsgPassed := "Текст прошел проверку"

  /**
   * `CheckHandler`. `request` is the decoded body, `None` when it is not
   * valid JSON of the expected shape.
   */
  function CheckHandler(cs: CensorService, request: Option<CheckRequest>): (r: Reply)
    ensures r.IsSuccess() <==> request.Some? && !IsBanned(cs, request.value.text)
    ensures !r.IsSuccess() ==> r.code == StatusBadRequest
    ensures r.code == StatusOK || r.code == StatusBadRequest
  {
    match request
    case None => HttpError(StatusBadRequest, MsgBadBody)
    case Some(req) =>
      if IsBanned(cs, req.text) then HttpError(StatusBadRequest, MsgForbidden)
      else Success(Message(MsgPassed), None)
  }
}
