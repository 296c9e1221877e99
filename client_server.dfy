/**
 * Where the client and the server disagree. Each side is modelled as
 * written; these lemmas state what happens when one talks to the other.
 */
module ClientServer {
  import opened Wrappers
  import opened ClientTypes
  import AuthRoutes
  import InventoryModel
  import InventoryRoutes
  import CheckoutPage
  import RegisterPage

  /**
   * The JSON body the server reads from the client's `register` payload: the
   * server looks for `name`, which the client never sends (it sends
   * `firstName` and `lastName`).
   */
  function ServerRegisterBody(data: RegisterData): (body: AuthRoutes.RegisterBody)
    ensures body.name.None?
    ensures body.email == Some(data.email) && body.password == Some(data.password)
    ensures body.workingGroup == Some(data.workingGroup)
  {
    AuthRoutes.RegisterBody(Some(data.email), Some(data.password), None, Some(data.workingGroup))
  }

  /** Every registration the form sends is refused by the server's validators for lack of `name`, and creates no account. */
  lemma ClientRegistrationRejected(accounts: seq<AuthRoutes.Account>, f: RegisterPage.FormData, isEmail: string -> bool)
    requires RegisterPage.HandleSubmit(f).Send?
    ensures var o := AuthRoutes.RegisterOutcome(accounts, ServerRegisterBody(RegisterPage.HandleSubmit(f).data), isEmail);
      && o.0 == accounts
      && o.1.Failure? && o.1.error.Invalid? && AuthRoutes.Name in o.1.error.fields
      && AuthRoutes.AuthStatus(o.1.error) == 400
  {
  }

  /** The client offers 'Customs'; the server's working-group validator refuses it. */
  lemma CustomsRefused(body: AuthRoutes.RegisterBody, isEmail: string -> bool)
    requires body.workingGroup == Some("Customs")
    ensures "Customs" in ClientWorkingGroups
    ensures AuthRoutes.WorkingGroup in AuthRoutes.RegisterViolations(body, isEmail)
  {
  }

  /**
   * Passwords of 6 or 7 characters satisfy the server's rule but are refused
   * by the form, which asks for at least 8.
   */
  lemma PasswordPolicyGap(f: RegisterPage.FormData)
    requires RegisterPage.EmailPatternMatches(f.email)
    requires 6 <= |f.password| < 8
    ensures AuthRoutes.PasswordOk(Some(f.password))
    ensures RegisterPage.HandleSubmit(f) == RegisterPage.Rejected(RegisterPage.ShortPasswordMessage)
  {
  }

  /**
   * The server answers a duplicate email with 400, never 409, so the form's
   * duplicate-email message is never chosen for it: the form shows whatever
   * message the 400 carries, or its generic invalid-data text.
   */
  lemma DuplicateEmailShownAsInvalidData(message: Option<string>)
    ensures forall e :: AuthRoutes.AuthStatus(e) != 409
    ensures RegisterPage.SubmitErrorMessage(Some(AuthRoutes.AuthStatus(AuthRoutes.UserExists)), message)
      == if message.Some? && message.value != "" then message.value else RegisterPage.InvalidDataMessage
  {
    forall e: AuthRoutes.AuthError
      ensures AuthRoutes.AuthStatus(e) != 409
    {
    }
  }

  /** The checkout entries the server reads from the client's payload, with `idOf` turning a string id into a document id. */
  function ServerEntries(payload: seq<(string, int)>, idOf: string -> InventoryModel.ItemId)
    : (entries: seq<InventoryRoutes.CheckoutEntry>)
    ensures |entries| == |payload|
    ensures forall k :: 0 <= k < |payload| ==> entries[k] == InventoryRoutes.CheckoutEntry(idOf(payload[k].0), payload[k].1)
  {
    seq(|payload|, k requires 0 <= k < |payload| => InventoryRoutes.CheckoutEntry(idOf(payload[k].0), payload[k].1))
  }

  /**
   * The form lets a row's quantity drop to 0 or below; a checkout containing
   * such a row is refused by the server's validator as a whole, before any
   * stock changes.
   */
  lemma NonPositiveRowRefused(items: map<InventoryModel.ItemId, InventoryModel.Item>, selected: seq<CheckoutPage.Selected>,
                              k: nat, idOf: string -> InventoryModel.ItemId, stamps: seq<InventoryModel.SaveStamp>)
    requires k < |selected| && selected[k].checkoutQuantity < 1
    requires |stamps| == |selected|
    ensures var w := InventoryRoutes.RunCheckout(items, ServerEntries(CheckoutPage.CheckoutPayload(selected), idOf), stamps);
      w.Response() == Failure(InventoryRoutes.Invalid) && w.items == items
  {
    var entries := ServerEntries(CheckoutPage.CheckoutPayload(selected), idOf);
    assert entries[k].quantity < 1;
  }
}
