/**
 The login check of the connector. The shop answers the sign-in form with HTTP 200
 whether or not the credentials were accepted, so the connector decides from the
 text of the returned page alone: a welcome sentence means success, otherwise the
 first of five known error messages found names the failure, and a page with none
 of them is an unknown failure.
 */
module Login {
  import opened Text

  /** Shown on the account home page after a successful sign-in. */
  const Welcome := "Bienvenue sur votre page d'accueil."

  const MissingEmailMessage := "Adresse e-mail requise"
  const InvalidEmailMessage := "Adresse e-mail invalide"
  const MissingPasswordMessage := "Mot de passe requis"
  const InvalidPasswordMessage := "mot de passe non valable"
  /** "Échec d'authentification", as it appears HTML-escaped in the page source. */
  const AuthFailedMessage := "&Eacute;chec d&#039;authentification"
  /** Logged when the page holds none of the known sentences. */
  const UnknownErrorMessage := "erreur inconnue"

  /** Which branch of the check a response page takes. */
  datatype Outcome =
    | Success
    | MissingEmail
    | InvalidEmail
    | MissingPassword
    | InvalidPassword
    | AuthFailed
    | Unknown

  /** The if/else-if chain of the check, one substring test per branch. */
  function Classify(html: string): Outcome {
    if Includes(html, Welcome) then Success
    else if Includes(html, MissingEmailMessage) then MissingEmail
    else if Includes(html, InvalidEmailMessage) then InvalidEmail
    else if Includes(html, MissingPasswordMessage) then MissingPassword
    else if Includes(html, InvalidPasswordMessage) then InvalidPassword
    else if Includes(html, AuthFailedMessage) then AuthFailed
    else Unknown
  }

  /** The boolean handed back to the sign-in helper. The HTTP status code is a
      parameter only because the callback receives it; it plays no part. */
  function Validate(statusCode: int, html: string): (ok: bool)
    ensures ok <==> Includes(html, Welcome)
  {
    Classify(html).Success?
  }

  /** The message logged at error level on a failed sign-in. */
  function LoggedError(o: Outcome): (msg: string)
    requires o != Success
    ensures o == Unknown <==> msg == UnknownErrorMessage
    ensures forall k :: 0 <= k < |ErrorTable| && ErrorTable[k].1 == o ==> msg == ErrorTable[k].0
  {
    match o
    case MissingEmail => MissingEmailMessage
    case InvalidEmail => InvalidEmailMessage
    case MissingPassword => MissingPasswordMessage
    case InvalidPassword => InvalidPasswordMessage
    case AuthFailed => AuthFailedMessage
    case Unknown => UnknownErrorMessage
  }

  /** The five error sentences with the failure each one reports, in the order
      the check tries them. */
  const ErrorTable: seq<(string, Outcome)> := [
    (MissingEmailMessage, MissingEmail),
    (InvalidEmailMessage, InvalidEmail),
    (MissingPasswordMessage, MissingPassword),
    (InvalidPasswordMessage, InvalidPassword),
    (AuthFailedMessage, AuthFailed)
  ]

  /** Reference reading of the failure branches: the outcome paired with the first
      sentence of `table` that the page includes, or Unknown. */
  function FirstMatch(html: string, table: seq<(string, Outcome)>): Outcome {
    if table == [] then Unknown
    else if Includes(html, table[0].0) then table[0].1
    else FirstMatch(html, table[1..])
  }

  /** The outcome is success exactly when the page holds the welcome sentence,
      whatever error sentences it also holds. */
  lemma SuccessIffWelcome(html: string)
    ensures Classify(html) == Success <==> Includes(html, Welcome)
  {
  }

  /** Without the welcome sentence the chain of tests is the table scan. */
  lemma {:induction false} ClassifyIsFirstMatch(html: string)
    requires !Includes(html, Welcome)
    ensures Classify(html) == FirstMatch(html, ErrorTable)
  {
    var t4 := [(AuthFailedMessage, AuthFailed)];
    assert t4[1..] == [];
    var r4 := if Includes(html, AuthFailedMessage) then AuthFailed else Unknown;
    assert FirstMatch(html, t4) == r4;
    var t3 := [(InvalidPasswordMessage, InvalidPassword)] + t4;
    assert t3[1..] == t4;
    var r3 := if Includes(html, InvalidPasswordMessage) then InvalidPassword else r4;
    assert FirstMatch(html, t3) == r3;
    var t2 := [(MissingPasswordMessage, MissingPassword)] + t3;
    assert t2[1..] == t3;
    var r2 := if Includes(html, MissingPasswordMessage) then MissingPassword else r3;
    assert FirstMatch(html, t2) == r2;
    var t1 := [(InvalidEmailMessage, InvalidEmail)] + t2;
    assert t1[1..] == t2;
    var r1 := if Includes(html, InvalidEmailMessage) then InvalidEmail else r2;
    assert FirstMatch(html, t1) == r1;
    assert ErrorTable == [(MissingEmailMessage, MissingEmail)] + t1;
    assert ErrorTable[1..] == t1;
  }

  /** The failure reported is the one of the k-th sentence exactly when there is no
      welcome sentence, the k-th sentence is present and no earlier one is. */
  lemma {:induction false} FirstErrorWins(html: string, k: nat)
    requires k < |ErrorTable|
    ensures Classify(html) == ErrorTable[k].1 <==>
      && !Includes(html, Welcome)
      && Includes(html, ErrorTable[k].0)
      && forall j :: 0 <= j < k ==> !Includes(html, ErrorTable[j].0)
  {
    var t := ErrorTable;
    assert t[0] == (MissingEmailMessage, MissingEmail);
    assert t[1] == (InvalidEmailMessage, InvalidEmail);
    assert t[2] == (MissingPasswordMessage, MissingPassword);
    assert t[3] == (InvalidPasswordMessage, InvalidPassword);
    assert t[4] == (AuthFailedMessage, AuthFailed);
  }

  /** Unknown is reported exactly when none of the six sentences is on the page;
      in particular it is never a success. */
  lemma {:induction false} UnknownIffNoSentence(html: string)
    ensures Classify(html) == Unknown <==>
      && !Includes(html, Welcome)
      && forall j :: 0 <= j < |ErrorTable| ==> !Includes(html, ErrorTable[j].0)
  {
    var t := ErrorTable;
    assert t[0].0 == MissingEmailMessage && t[1].0 == InvalidEmailMessage;
    assert t[2].0 == MissingPasswordMessage && t[3].0 == InvalidPasswordMessage;
    assert t[4].0 == AuthFailedMessage;
  }

  /** On every failure but Unknown, the logged message is the first error sentence
      of the table that the page holds. */
  lemma LoggedErrorIsOnPage(html: string)
    requires Classify(html) != Success && Classify(html) != Unknown
    ensures exists k ::
      && 0 <= k < |ErrorTable|
      && LoggedError(Classify(html)) == ErrorTable[k].0
      && Includes(html, ErrorTable[k].0)
      && forall j :: 0 <= j < k ==> !Includes(html, ErrorTable[j].0)
  {
    var o := Classify(html);
    var k :=
      if o == MissingEmail then 0
      else if o == InvalidEmail then 1
      else if o == MissingPassword then 2
      else if o == InvalidPassword then 3
      else 4;
    assert ErrorTable[k].1 == o;
    FirstErrorWins(html, k);
  }

  /** Any page holding the missing-e-mail and the invalid-password sentences, and no
      welcome sentence, reports and logs the missing e-mail: the earlier test wins. */
  lemma MissingEmailBeatsInvalidPassword(html: string)
    requires !Includes(html, Welcome)
    requires Includes(html, MissingEmailMessage) && Includes(html, InvalidPasswordMessage)
    ensures Classify(html) == MissingEmail
    ensures LoggedError(Classify(html)) == MissingEmailMessage
    ensures forall statusCode :: !Validate(statusCode, html)
  {
    FirstErrorWins(html, 0);
  }

  /** The page `MissingEmailMessage + "<br>" + InvalidPasswordMessage` meets the
      conditions above: it lacks the welcome sentence, whose first letter B it
      does not contain. */
  lemma {:induction false} SampleErrorPage()
    ensures !Includes(MissingEmailMessage + "<br>" + InvalidPasswordMessage, Welcome)
    ensures Classify(MissingEmailMessage + "<br>" + InvalidPasswordMessage) == MissingEmail
  {
    var page := MissingEmailMessage + "<br>" + InvalidPasswordMessage;
    assert Welcome[0] == 'B';
    assert 'B' !in MissingEmailMessage;
    assert 'B' !in "<br>";
    assert 'B' !in InvalidPasswordMessage;
    assert 'B' !in page;
    ExcludesWithoutFirstChar(page, Welcome);
    IncludesInfix([], MissingEmailMessage, "<br>" + InvalidPasswordMessage);
    assert [] + MissingEmailMessage + ("<br>" + InvalidPasswordMessage) == page;
  }
}
