/**
 * The fixed user-facing error messages of the API client, the table from
 * HTTP status codes to them (section 15 of RFC 9110; 429 is section 4 of
 * RFC 6585), and the classification of whatever a request throws into one
 * of them.
 */
module ApiErrors {
  import opened JsText

  // ---------------------------------------------------------------------------
  // The fourteen messages
  // ---------------------------------------------------------------------------

  // The status messages and the default are spelled out of short parts, so
  // that the proof that none of them mentions a timeout can go part by part.
  const PartWeCouldnt: string := "We couldn't "
  const PartProcessYour: string := "process your "
  const PartRequest: string := "request. "
  const PartPleaseCheckYour: string := "Please check your "
  const PartInfor: string := "infor"
  const PartAtion: string := "ation "
  const PartAndTryAgain: string := "and try again."
  const PartYourSession: string := "Your session "
  const PartHasExpired: string := "has expired. "
  const PartPleaseSign: string := "Please sign "
  const PartInAgain: string := "in again."
  const PartYouDontHave: string := "You don't have "
  const PartPer: string := "per"
  const PartIssion: string := "ission "
  const PartToPerfor: string := "to perfor"
  const PartThisActionEnd: string := " this action."
  const PartTheRequested: string := "The requested "
  const PartResource: string := "resource "
  const PartCouldNot: string := "could not "
  const PartBeFound: string := "be found."
  const PartTheRequest: string := "The request "
  const PartTook: string := "took "
  const PartTooLong: string := "too long. "
  const PartPleaseTryAgain: string := "Please try again."
  const PartThisAction: string := "This action "
  const PartConflicts: string := "conflicts "
  const PartWithExisting: string := "with existing "
  const PartData: string := "data. "
  const PartPleaseRefresh: string := "Please refresh "
  const PartToo: string := "Too "
  const PartAnyRequests: string := "any requests. "
  const PartPleaseWaitA: string := "Please wait a "
  const PartO: string := "o"
  const PartEnt: string := "ent "
  const PartSo: string := "So"
  const PartEthingWent: string := "ething went "
  const PartWrong: string := "wrong "
  const PartOnOurEnd: string := "on our end. "
  const PartPleaseTryAgainThen: string := "Please try again "
  const PartInAFew: string := "in a few "
  const PartEnts: string := "ents."
  const PartOurServersAre: string := "Our servers are "
  const PartTe: string := "te"
  const PartPorarily: string := "porarily "
  const PartUnavailable: string := "unavailable. "
  const PartSoon: string := "soon."
  const PartOurServiceIs: string := "Our service is "
  const PartLater: string := "later."
  const PartIsTaking: string := "is taking "
  const PartAnUnexpected: string := "An unexpected "
  const PartErrorOccurred: string := "error occurred. "
  const PartM: string := "m"

  const Message400: string :=
    PartWeCouldnt + PartProcessYour + PartRequest + PartPleaseCheckYour + PartInfor + PartM
    + PartAtion + PartAndTryAgain
  const Message401: string := PartYourSession + PartHasExpired + PartPleaseSign + PartInAgain
  const Message403: string :=
    PartYouDontHave + PartPer + PartM + PartIssion + PartToPerfor + PartM + PartThisActionEnd
  const Message404: string := PartTheRequested + PartResource + PartCouldNot + PartBeFound
  const Message408: string := PartTheRequest + PartTook + PartTooLong + PartPleaseTryAgain
  const Message409: string :=
    PartThisAction + PartConflicts + PartWithExisting + PartData + PartPleaseRefresh
    + PartAndTryAgain
  const Message429: string :=
    PartToo + PartM + PartAnyRequests + PartPleaseWaitA + PartM + PartO + PartM + PartEnt
    + PartAndTryAgain
  const Message500: string :=
    PartSo + PartM + PartEthingWent + PartWrong + PartOnOurEnd + PartPleaseTryAgainThen + PartInAFew
    + PartM + PartO + PartM + PartEnts
  const Message502: string :=
    PartOurServersAre + PartTe + PartM + PartPorarily + PartUnavailable + PartPleaseTryAgainThen
    + PartSoon
  const Message503: string :=
    PartOurServiceIs + PartTe + PartM + PartPorarily + PartUnavailable + PartPleaseTryAgainThen
    + PartLater
  const Message504: string := PartTheRequest + PartIsTaking + PartTooLong + PartPleaseTryAgain
  const NetworkMessage: string := "Unable to connect " + "to the server. " + "Please check your " + "internet connection " + "and try again."
  const TimeoutMessage: string := "The request took too long " + "to complete. " + "Please check your " + "connection and try again."
  const DefaultMessage: string := PartAnUnexpected + PartErrorOccurred + PartPleaseTryAgain

  /** The status codes the table has an entry for. */
  const StatusCodes: seq<int> := [400, 401, 403, 404, 408, 409, 429, 500, 502, 503, 504]

  /** The values of the table, in its order. */
  const AllMessages: seq<string> := [
    Message400, Message401, Message403, Message404, Message408, Message409, Message429,
    Message500, Message502, Message503, Message504, NetworkMessage, TimeoutMessage, DefaultMessage]

  /** Looking a status code up in the table. */
  function StatusMessage(code: int): Option<string>
  {
    match code
    case 400 => Some(Message400)
    case 401 => Some(Message401)
    case 403 => Some(Message403)
    case 404 => Some(Message404)
    case 408 => Some(Message408)
    case 409 => Some(Message409)
    case 429 => Some(Message429)
    case 500 => Some(Message500)
    case 502 => Some(Message502)
    case 503 => Some(Message503)
    case 504 => Some(Message504)
    case _ => None
  }

  /** getUserFriendlyErrorMessage: the table entry, or the default message. */
  function UserFriendlyMessage(code: int): (m: string)
    ensures m in AllMessages
  {
    match StatusMessage(code)
    case Some(m) => m
    case None => DefaultMessage
  }

  /** The table has an entry exactly for the listed codes. */
  lemma StatusMessageDefined(code: int)
    ensures StatusMessage(code).Some? <==> code in StatusCodes
  {
  }

  /**
   * Every listed code gets a message of its own, different from every
   * other code's and from the default; every other code gets the default.
   */
  lemma UserFriendlyMessageDistinct(c1: int, c2: int)
    ensures UserFriendlyMessage(c1) == DefaultMessage <==> c1 !in StatusCodes
    ensures c1 in StatusCodes && c2 in StatusCodes && c1 != c2 ==> UserFriendlyMessage(c1) != UserFriendlyMessage(c2)
  {
    var m1, m2 := UserFriendlyMessage(c1), UserFriendlyMessage(c2);
    StatusMessageDefined(c1);
    MessageCodeRecovers(c1);
    MessageCodeRecovers(c2);
    if c1 in StatusCodes {
      assert MessageCode(m1) == c1 != 0 == MessageCode(DefaultMessage);
    }
    if c1 in StatusCodes && c2 in StatusCodes && c1 != c2 {
      assert MessageCode(m1) != MessageCode(m2);
    }
  }

  /** Which code a message of the table belongs to, by its length and a letter; 0 for any other text. */
  function MessageCode(m: string): int
  {
    match |m|
    case 78 => 400
    case 47 => if m[0] == 'Y' then 401 else 0
    case 49 => if m[0] == 'Y' then 403 else 504
    case 42 => 404
    case 44 => 408
    case 71 => 409
    case 54 => 429
    case 67 => 500
    case 63 => if m[8] == 'e' then 502 else 503
    case _ => 0
  }

  /** The message of a listed code gives the code back, and the default gives 0. */
  lemma MessageCodeRecovers(code: int)
    ensures MessageCode(UserFriendlyMessage(code)) == (if code in StatusCodes then code else 0)
    ensures MessageCode(DefaultMessage) == 0
  {
    MessageLengths();
  }

  /**
   * Proof scaffolding for MessageCode: the lengths of the messages, which tell
   * all but two of them apart.
   */
  lemma MessageLengths()
    ensures |Message400| == 78 && |Message401| == 47 && |Message403| == 49 && |Message404| == 42
    ensures |Message408| == 44 && |Message409| == 71 && |Message429| == 54 && |Message500| == 67
    ensures |Message502| == 63 && |Message503| == 63 && |Message504| == 49
    ensures |NetworkMessage| == 85 && |TimeoutMessage| == 82 && |DefaultMessage| == 47
    ensures Message401[0] == 'Y' && DefaultMessage[0] == 'A'
    ensures Message403[0] == 'Y' && Message504[0] == 'T'
    ensures Message502[8] == 'e' && Message503[8] == 'i'
  {
  }

  // ---------------------------------------------------------------------------
  // What a request can throw
  // ---------------------------------------------------------------------------

  /** What `instanceof` says about a thrown value. */
  datatype ErrorClass = TypeErrorObject | ErrorObject | NotAnError

  /** A thrown value: its class, its `name` and its `message` ("" when it has none). */
  datatype Thrown = Thrown(kind: ErrorClass, name: string, message: string)

  predicate IsErrorInstance(e: Thrown) { e.kind != NotAnError }

  /** isNetworkError: a TypeError whose lower-cased message mentions a failed fetch. */
  predicate IsNetworkError(e: Thrown)
  {
    e.kind == TypeErrorObject &&
    var m := ToLower(e.message);
    Includes(m, "fetch") || Includes(m, "network") || Includes(m, "failed to fetch")
    || Includes(m, "networkerror") || Includes(m, "load failed")
  }

  /** The two longer words of isNetworkError contain shorter ones, so three words decide it. */
  lemma NetworkErrorWords(e: Thrown)
    ensures IsNetworkError(e) <==>
              e.kind == TypeErrorObject &&
              var m := ToLower(e.message);
              Includes(m, "fetch") || Includes(m, "network") || Includes(m, "load failed")
  {
    var m := ToLower(e.message);
    if Includes(m, "failed to fetch") {
      assert "failed to fetch"[10..15] == "fetch";
      IncludesInfix(m, "fetch", "failed to fetch", 10);
    }
    if Includes(m, "networkerror") {
      assert "networkerror"[0..7] == "network";
      IncludesInfix(m, "network", "networkerror", 0);
    }
  }

  /** isTimeoutError: an Error whose lower-cased message says it timed out. */
  predicate IsTimeoutError(e: Thrown)
  {
    IsErrorInstance(e) &&
    var m := ToLower(e.message);
    Includes(m, "timeout") || Includes(m, "timed out")
  }

  /** `Object.values(ERROR_MESSAGES).includes(message)`. */
  predicate IsKnownMessage(m: string) { m in AllMessages }

  /**
   * The catch block of `request`: the message of the Error the request is
   * rejected with, for whatever was thrown inside it, tried in order.
   */
  function Reclassify(e: Thrown): (m: string)
    ensures m in AllMessages
  {
    if e.name == "AbortError" then TimeoutMessage
    else if IsNetworkError(e) then NetworkMessage
    else if IsTimeoutError(e) then TimeoutMessage
    else if e.message != "" && (e.message == NetworkMessage || IsKnownMessage(e.message)) then e.message
    else DefaultMessage
  }

  /** The order of the rules, and what each of them gives. */
  lemma ReclassifyRules(e: Thrown)
    ensures e.name == "AbortError" ==> Reclassify(e) == TimeoutMessage
    ensures e.name != "AbortError" && IsNetworkError(e) ==> Reclassify(e) == NetworkMessage
    ensures e.name != "AbortError" && !IsNetworkError(e) && IsTimeoutError(e) ==> Reclassify(e) == TimeoutMessage
    ensures e.name != "AbortError" && !IsNetworkError(e) && !IsTimeoutError(e) ==>
              (Reclassify(e) == e.message <==> IsKnownMessage(e.message))
    ensures e.name != "AbortError" && !IsNetworkError(e) && !IsTimeoutError(e) && !IsKnownMessage(e.message) ==>
              Reclassify(e) == DefaultMessage
  {
    if e.name != "AbortError" && !IsNetworkError(e) && !IsTimeoutError(e) && !IsKnownMessage(e.message) {
      assert DefaultMessage in AllMessages;
    }
  }

  /** Reclassifying is idempotent: an Error carrying a reclassified message keeps it. */
  lemma ReclassifyKeepsStatusMessage(code: int)
    ensures Reclassify(Thrown(ErrorObject, "Error", UserFriendlyMessage(code))) == UserFriendlyMessage(code)
  {
    var m := UserFriendlyMessage(code);
    NoTimeoutWords(m);
  }

  // ---------------------------------------------------------------------------
  // None of the status messages (nor the default) says "timeout" or "timed out"
  // ---------------------------------------------------------------------------

  // Only NoTimeoutWords, at the end of this section, is about the source. The
  // predicates and lemmas before it are proof scaffolding and model nothing:
  // "timeout" and "timed out" both contain "im", so it suffices that no message
  // does. Each message is built from its text parts, with one small lemma per
  // part (Plain*) and one per message (NoIm*), so that every proof obligation
  // stays small.

  /** No 'i' is directly followed by 'm', ignoring case. */
  predicate NoIm(s: string)
  {
    forall i :: 0 < i < |s| ==> !(LowerChar(s[i - 1]) == 'i' && LowerChar(s[i]) == 'm')
  }

  /** Both words contain "im", so text without "im" contains neither. */
  lemma NoImNoTimeout(s: string)
    requires NoIm(s)
    ensures !Includes(ToLower(s), "timeout") && !Includes(ToLower(s), "timed out")
  {
    var t := ToLower(s);
    forall k, p | p == "timeout" || p == "timed out" ensures !OccursAt(t, p, k) {
      if 0 <= k && k + |p| <= |t| {
        assert t[k + 1] == t[k..k + |p|][1] && t[k + 2] == t[k..k + |p|][2];
        assert !(LowerChar(s[k + 1]) == 'i' && LowerChar(s[k + 2]) == 'm');
      }
    }
  }

  /** A piece of message text: not empty, without "im", not ending in 'i'. */
  predicate Piece(s: string)
  {
    s != [] && NoIm(s) && LowerChar(s[|s| - 1]) != 'i'
  }

  /** Text without 'm' that does not end in 'i'. */
  predicate Plain(s: string)
  {
    'm' !in s && 'M' !in s && s != [] && LowerChar(s[|s| - 1]) != 'i'
  }

  lemma PlainPiece(s: string)
    requires Plain(s)
    ensures Piece(s)
  {
    forall i | 0 < i < |s| ensures LowerChar(s[i]) != 'm' {
      assert s[i] in s;
    }
  }

  /** Two pieces in a row make a piece: the first does not end in 'i'. */
  lemma PieceConcat(a: string, b: string)
    requires Piece(a) && Piece(b)
    ensures Piece(a + b)
  {
    var s := a + b;
    forall i | 0 < i < |s| ensures !(LowerChar(s[i - 1]) == 'i' && LowerChar(s[i]) == 'm') {
      if i < |a| {
        assert s[i - 1] == a[i - 1] && s[i] == a[i];
      } else if i > |a| {
        assert s[i - 1] == b[i - 1 - |a|] && s[i] == b[i - |a|];
      } else {
        assert s[i - 1] == a[|a| - 1];
      }
    }
    assert s[|s| - 1] == b[|b| - 1];
  }

  /** A piece followed by plain text. */
  lemma Then(a: string, b: string) returns (s: string)
    requires Piece(a) && Plain(b)
    ensures s == a + b && Piece(s)
  {
    PlainPiece(b);
    PieceConcat(a, b);
    s := a + b;
  }

  /** A piece followed by an 'm'. */
  lemma ThenM(a: string) returns (s: string)
    requires Piece(a)
    ensures s == a + PartM && Piece(s)
  {
    assert Piece(PartM);
    PieceConcat(a, PartM);
    s := a + PartM;
  }

  /** Plain text to start a piece with. */
  lemma Start(a: string) returns (s: string)
    requires Plain(a)
    ensures s == a && Piece(s)
  {
    PlainPiece(a);
    s := a;
  }

  /** The parts without an 'm'. */
  lemma PlainWeCouldnt() ensures Plain(PartWeCouldnt) { }
  lemma PlainProcessYour() ensures Plain(PartProcessYour) { }
  lemma PlainRequest() ensures Plain(PartRequest) { }
  lemma PlainPleaseCheckYour() ensures Plain(PartPleaseCheckYour) { }
  lemma PlainInfor() ensures Plain(PartInfor) { }
  lemma PlainAtion() ensures Plain(PartAtion) { }
  lemma PlainAndTryAgain() ensures Plain(PartAndTryAgain) { }
  lemma PlainYourSession() ensures Plain(PartYourSession) { }
  lemma PlainHasExpired() ensures Plain(PartHasExpired) { }
  lemma PlainPleaseSign() ensures Plain(PartPleaseSign) { }
  lemma PlainInAgain() ensures Plain(PartInAgain) { }
  lemma PlainYouDontHave() ensures Plain(PartYouDontHave) { }
  lemma PlainPer() ensures Plain(PartPer) { }
  lemma PlainIssion() ensures Plain(PartIssion) { }
  lemma PlainToPerfor() ensures Plain(PartToPerfor) { }
  lemma PlainThisActionEnd() ensures Plain(PartThisActionEnd) { }
  lemma PlainTheRequested() ensures Plain(PartTheRequested) { }
  lemma PlainResource() ensures Plain(PartResource) { }
  lemma PlainCouldNot() ensures Plain(PartCouldNot) { }
  lemma PlainBeFound() ensures Plain(PartBeFound) { }
  lemma PlainTheRequest() ensures Plain(PartTheRequest) { }
  lemma PlainTook() ensures Plain(PartTook) { }
  lemma PlainTooLong() ensures Plain(PartTooLong) { }
  lemma PlainPleaseTryAgain() ensures Plain(PartPleaseTryAgain) { }
  lemma PlainThisAction() ensures Plain(PartThisAction) { }
  lemma PlainConflicts() ensures Plain(PartConflicts) { }
  lemma PlainWithExisting() ensures Plain(PartWithExisting) { }
  lemma PlainData() ensures Plain(PartData) { }
  lemma PlainPleaseRefresh() ensures Plain(PartPleaseRefresh) { }
  lemma PlainToo() ensures Plain(PartToo) { }
  lemma PlainAnyRequests() ensures Plain(PartAnyRequests) { }
  lemma PlainPleaseWaitA() ensures Plain(PartPleaseWaitA) { }
  lemma PlainO() ensures Plain(PartO) { }
  lemma PlainEnt() ensures Plain(PartEnt) { }
  lemma PlainSo() ensures Plain(PartSo) { }
  lemma PlainEthingWent() ensures Plain(PartEthingWent) { }
  lemma PlainWrong() ensures Plain(PartWrong) { }
  lemma PlainOnOurEnd() ensures Plain(PartOnOurEnd) { }
  lemma PlainPleaseTryAgainThen() ensures Plain(PartPleaseTryAgainThen) { }
  lemma PlainInAFew() ensures Plain(PartInAFew) { }
  lemma PlainEnts() ensures Plain(PartEnts) { }
  lemma PlainOurServersAre() ensures Plain(PartOurServersAre) { }
  lemma PlainTe() ensures Plain(PartTe) { }
  lemma PlainPorarily() ensures Plain(PartPorarily) { }
  lemma PlainUnavailable() ensures Plain(PartUnavailable) { }
  lemma PlainSoon() ensures Plain(PartSoon) { }
  lemma PlainOurServiceIs() ensures Plain(PartOurServiceIs) { }
  lemma PlainLater() ensures Plain(PartLater) { }
  lemma PlainIsTaking() ensures Plain(PartIsTaking) { }
  lemma PlainAnUnexpected() ensures Plain(PartAnUnexpected) { }
  lemma PlainErrorOccurred() ensures Plain(PartErrorOccurred) { }

  lemma NoIm400()
    ensures NoIm(Message400)
  {
    PlainWeCouldnt(); PlainProcessYour(); PlainRequest(); PlainPleaseCheckYour(); PlainInfor();
    PlainAtion(); PlainAndTryAgain();
    var s := Start(PartWeCouldnt);
    s := Then(s, PartProcessYour);
    s := Then(s, PartRequest);
    s := Then(s, PartPleaseCheckYour);
    s := Then(s, PartInfor);
    s := ThenM(s);
    s := Then(s, PartAtion);
    s := Then(s, PartAndTryAgain);
  }

  lemma NoIm401()
    ensures NoIm(Message401)
  {
    PlainYourSession(); PlainHasExpired(); PlainPleaseSign(); PlainInAgain();
    var s := Start(PartYourSession);
    s := Then(s, PartHasExpired);
    s := Then(s, PartPleaseSign);
    s := Then(s, PartInAgain);
  }

  lemma NoIm403()
    ensures NoIm(Message403)
  {
    PlainYouDontHave(); PlainPer(); PlainIssion(); PlainToPerfor(); PlainThisActionEnd();
    var s := Start(PartYouDontHave);
    s := Then(s, PartPer);
    s := ThenM(s);
    s := Then(s, PartIssion);
    s := Then(s, PartToPerfor);
    s := ThenM(s);
    s := Then(s, PartThisActionEnd);
  }

  lemma NoIm404()
    ensures NoIm(Message404)
  {
    PlainTheRequested(); PlainResource(); PlainCouldNot(); PlainBeFound();
    var s := Start(PartTheRequested);
    s := Then(s, PartResource);
    s := Then(s, PartCouldNot);
    s := Then(s, PartBeFound);
  }

  lemma NoIm408()
    ensures NoIm(Message408)
  {
    PlainTheRequest(); PlainTook(); PlainTooLong(); PlainPleaseTryAgain();
    var s := Start(PartTheRequest);
    s := Then(s, PartTook);
    s := Then(s, PartTooLong);
    s := Then(s, PartPleaseTryAgain);
  }

  lemma NoIm409()
    ensures NoIm(Message409)
  {
    PlainThisAction(); PlainConflicts(); PlainWithExisting(); PlainData(); PlainPleaseRefresh();
    PlainAndTryAgain();
    var s := Start(PartThisAction);
    s := Then(s, PartConflicts);
    s := Then(s, PartWithExisting);
    s := Then(s, PartData);
    s := Then(s, PartPleaseRefresh);
    s := Then(s, PartAndTryAgain);
  }

  lemma NoIm429()
    ensures NoIm(Message429)
  {
    PlainToo(); PlainAnyRequests(); PlainPleaseWaitA(); PlainO(); PlainEnt(); PlainAndTryAgain();
    var s := Start(PartToo);
    s := ThenM(s);
    s := Then(s, PartAnyRequests);
    s := Then(s, PartPleaseWaitA);
    s := ThenM(s);
    s := Then(s, PartO);
    s := ThenM(s);
    s := Then(s, PartEnt);
    s := Then(s, PartAndTryAgain);
  }

  lemma NoIm500()
    ensures NoIm(Message500)
  {
    PlainSo(); PlainEthingWent(); PlainWrong(); PlainOnOurEnd(); PlainPleaseTryAgainThen();
    PlainInAFew(); PlainO(); PlainEnts();
    var s := Start(PartSo);
    s := ThenM(s);
    s := Then(s, PartEthingWent);
    s := Then(s, PartWrong);
    s := Then(s, PartOnOurEnd);
    s := Then(s, PartPleaseTryAgainThen);
    s := Then(s, PartInAFew);
    s := ThenM(s);
    s := Then(s, PartO);
    s := ThenM(s);
    s := Then(s, PartEnts);
  }

  lemma NoIm502()
    ensures NoIm(Message502)
  {
    PlainOurServersAre(); PlainTe(); PlainPorarily(); PlainUnavailable(); PlainPleaseTryAgainThen();
    PlainSoon();
    var s := Start(PartOurServersAre);
    s := Then(s, PartTe);
    s := ThenM(s);
    s := Then(s, PartPorarily);
    s := Then(s, PartUnavailable);
    s := Then(s, PartPleaseTryAgainThen);
    s := Then(s, PartSoon);
  }

  lemma NoIm503()
    ensures NoIm(Message503)
  {
    PlainOurServiceIs(); PlainTe(); PlainPorarily(); PlainUnavailable(); PlainPleaseTryAgainThen();
    PlainLater();
    var s := Start(PartOurServiceIs);
    s := Then(s, PartTe);
    s := ThenM(s);
    s := Then(s, PartPorarily);
    s := Then(s, PartUnavailable);
    s := Then(s, PartPleaseTryAgainThen);
    s := Then(s, PartLater);
  }

  lemma NoIm504()
    ensures NoIm(Message504)
  {
    PlainTheRequest(); PlainIsTaking(); PlainTooLong(); PlainPleaseTryAgain();
    var s := Start(PartTheRequest);
    s := Then(s, PartIsTaking);
    s := Then(s, PartTooLong);
    s := Then(s, PartPleaseTryAgain);
  }

  lemma NoImDefault()
    ensures NoIm(DefaultMessage)
  {
    PlainAnUnexpected(); PlainErrorOccurred(); PlainPleaseTryAgain();
    var s := Start(PartAnUnexpected);
    s := Then(s, PartErrorOccurred);
    s := Then(s, PartPleaseTryAgain);
  }

  /** No message of the status table, nor the default, mentions a timeout. */
  lemma NoTimeoutWords(m: string)
    requires m in StatusMessages()
    ensures !Includes(ToLower(m), "timeout") && !Includes(ToLower(m), "timed out")
  {
    NoIm400();
    NoIm401();
    NoIm403();
    NoIm404();
    NoIm408();
    NoIm409();
    NoIm429();
    NoIm500();
    NoIm502();
    NoIm503();
    NoIm504();
    NoImDefault();
    NoImNoTimeout(m);
  }

  /** The messages getUserFriendlyErrorMessage can return. */
  function StatusMessages(): (ms: seq<string>)
    ensures forall code :: UserFriendlyMessage(code) in ms
  {
    [Message400, Message401, Message403, Message404, Message408, Message409, Message429,
     Message500, Message502, Message503, Message504, DefaultMessage]
  }
}
