/** The add-funds form of the client: the checks its submit handler runs,
    in order, before it sends the request. */
module AddFundsPage {
  import opened Common
  import opened Text

  /** The form as submitted. `amount` is `Number` of the amount field;
      `paymentMethod` is the selected method's name. */
  datatype AddFundsForm = AddFundsForm(
    amount: JsNumber,
    paymentMethod: string,
    cardNumber: string,
    expiry: string,
    cvc: string)

  /** What the handler does: show an error and stop, or send the top-up of
      `amount` for user `userId`. */
  datatype Submission = Refused(message: string) | SendAddFunds(userId: int, amount: int)

  /** `/^\d{2}\/\d{2}$/`: two digits, a slash, two digits. */
  predicate ExpiryFormat(s: string)
  {
    |s| == 5 && IsDigit(s[0]) && IsDigit(s[1]) && s[2] == '/' && IsDigit(s[3]) && IsDigit(s[4])
  }

  /** The card checks, each with its message, in order. */
  function CardCheck(form: AddFundsForm): (r: Option<string>)
    ensures r.None? <==>
      && 8 <= |StripSpaces(form.cardNumber)| <= 16
      && ExpiryFormat(form.expiry)
      && 3 <= |form.cvc| <= 4
    ensures !(8 <= |StripSpaces(form.cardNumber)| <= 16) ==> r == Some("Card number must be 8-16 digits.")
    ensures 8 <= |StripSpaces(form.cardNumber)| <= 16 && !ExpiryFormat(form.expiry) ==>
      r == Some("Expiry must be in MM/YY format.")
    ensures 8 <= |StripSpaces(form.cardNumber)| <= 16 && ExpiryFormat(form.expiry) && !(3 <= |form.cvc| <= 4) ==>
      r == Some("CVC must be 3 or 4 digits.")
  {
    var trimmedCard := StripSpaces(form.cardNumber);
    if |trimmedCard| > 16 || |trimmedCard| < 8 then Some("Card number must be 8-16 digits.")
    else if !ExpiryFormat(form.expiry) then Some("Expiry must be in MM/YY format.")
    else if |form.cvc| < 3 || |form.cvc| > 4 then Some("CVC must be 3 or 4 digits.")
    else None
  }

  /** handleSubmit: `user` is the signed-in user's id, if anyone is signed
      in. */
  function HandleSubmit(user: Option<int>, form: AddFundsForm): (r: Submission)
    ensures user.None? ==> r == Refused("User not logged in")
    ensures user.Some? && (form.amount.NaN? || form.amount.value <= 0) ==> r == Refused("Enter a valid amount.")
    ensures user.Some? && form.amount.Num? && form.amount.value > 0 && form.paymentMethod == "card" && CardCheck(form).Some? ==>
      r == Refused(CardCheck(form).value)
    ensures r.SendAddFunds? ==> user.Some? && r.userId == user.value && form.amount.Num? && r.amount == form.amount.value > 0
  {
    if user.None? then Refused("User not logged in")
    else if form.amount.NaN? || form.amount.value <= 0 then Refused("Enter a valid amount.")
    else if form.paymentMethod == "card" && CardCheck(form).Some? then Refused(CardCheck(form).value)
    else SendAddFunds(user.value, form.amount.value)
  }

  /** The request is sent exactly when someone is signed in, the amount is
      a positive number and, for a card payment only, the card checks
      pass. */
  lemma HandleSubmitSends(user: Option<int>, form: AddFundsForm)
    ensures HandleSubmit(user, form).SendAddFunds? <==>
      && user.Some? && form.amount.Num? && form.amount.value > 0
      && (form.paymentMethod == "card" ==> CardCheck(form).None?)
  {
  }

  /** Bank and crypto payments ignore every card field. */
  lemma OtherMethodsSkipCardChecks(user: Option<int>, form: AddFundsForm, cardNumber: string, expiry: string, cvc: string)
    requires form.paymentMethod != "card"
    ensures HandleSubmit(user, form) == HandleSubmit(user, form.(cardNumber := cardNumber, expiry := expiry, cvc := cvc))
  {
  }

  /** The card number's characters are not checked, nor the expiry's
      month: eight letters and a thirteenth month pass. */
  lemma CardContentsNotChecked(userId: int)
    ensures HandleSubmit(Some(userId), AddFundsForm(Num(5), "card", "abcdefgh", "13/99", "123")) == SendAddFunds(userId, 5)
  {
    LettersPassCardChecks();
  }

  lemma LettersPassCardChecks()
    ensures CardCheck(AddFundsForm(Num(5), "card", "abcdefgh", "13/99", "123")).None?
  {
    LettersHaveNoSpace();
    ThirteenthMonthPasses();
  }

  lemma LettersHaveNoSpace()
    ensures StripSpaces("abcdefgh") == "abcdefgh"
  {
    StripSpacesKeepsText("abcdefgh");
  }

  lemma ThirteenthMonthPasses()
    ensures ExpiryFormat("13/99")
  {
  }
}
