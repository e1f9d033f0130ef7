/**
 * The crypto payment dialog: the amount check, the `transactions` record a payment
 * creates (USDT on TRC20 to the professional's wallet), its status, the QR payload, and
 * the reset after a recorded payment.
 */
module CryptoPayment {
  import opened Wrappers
  import opened Text
  import opened Backend

  const Currency: string := "USDT"
  const Network: string := "TRC20"
  const Confirming: string := "confirming"
  const Pending: string := "pending"
  const QrPrefix: string := "tron:"

  /** The three text boxes of the dialog. */
  datatype PaymentForm = PaymentForm(amount: string, txHash: string, description: string)

  const EmptyPaymentForm: PaymentForm := PaymentForm("", "", "")

  /** A row of `transactions`. `amount` is None when the text does not parse (NaN). */
  datatype Transaction = Transaction(
    clientId: string,
    professionalId: string,
    amount: Option<real>,
    currency: string,
    network: string,
    recipientWallet: string,
    txHash: Option<string>,
    description: Option<string>,
    status: string)

  /** `!amount || parseFloat(amount) <= 0`; `parseFloat` answers None for NaN, and NaN
      is not `<= 0`, so text that does not parse is let through. */
  predicate AmountRejected(amount: string, parseFloat: string -> Option<real>) {
    amount == [] || (parseFloat(amount).Some? && parseFloat(amount).value <= 0.0)
  }

  /** A positive amount always passes; an empty or non-positive one never does. */
  lemma AmountGuard(amount: string, parseFloat: string -> Option<real>)
    ensures amount != [] && parseFloat(amount).Some? && parseFloat(amount).value > 0.0 ==> !AmountRejected(amount, parseFloat)
    ensures amount == [] ==> AmountRejected(amount, parseFloat)
    ensures parseFloat(amount).Some? && parseFloat(amount).value <= 0.0 ==> AmountRejected(amount, parseFloat)
  {
  }

  /** `txHash ? 'confirming' : 'pending'`, on the untrimmed text. */
  function StatusFor(txHash: string): (status: string)
    ensures status == Confirming <==> txHash != []
    ensures status != Confirming ==> status == Pending
  {
    if txHash != [] then Confirming else Pending
  }

  /** The record `handleSubmit` inserts for `clientId`. */
  function TransactionOf(form: PaymentForm, clientId: string, professionalId: string, wallet: string,
                         parseFloat: string -> Option<real>): (t: Transaction)
    ensures t.clientId == clientId && t.professionalId == professionalId && t.recipientWallet == wallet
    ensures t.currency == Currency && t.network == Network
    ensures t.amount == parseFloat(form.amount)
    ensures t.txHash == NullIfEmpty(form.txHash) && t.description == NullIfEmpty(form.description)
    ensures t.status == Confirming <==> t.txHash.Some?
  {
    Transaction(clientId, professionalId, parseFloat(form.amount), Currency, Network, wallet,
                NullIfEmpty(form.txHash), NullIfEmpty(form.description), StatusFor(form.txHash))
  }

  /** The text the QR code encodes: the `tron:` URI of the wallet. */
  function QrPayload(wallet: string): (data: string)
    ensures |data| == |QrPrefix| + |wallet|
    ensures data[..|QrPrefix|] == QrPrefix
  {
    QrPrefix + wallet
  }

  /** The wallet is read back from the payload, so distinct wallets give distinct codes. */
  lemma QrPayloadInverse(w1: string, w2: string)
    ensures QrPayload(w1)[|QrPrefix|..] == w1
    ensures QrPayload(w1) == QrPayload(w2) ==> w1 == w2
  {
    assert QrPayload(w1)[|QrPrefix|..] == w1;
    assert QrPayload(w2)[|QrPrefix|..] == w2;
  }

  datatype PaymentOutcome = InvalidAmount | LoginRequired | PaymentFailed | PaymentInitiated(confirming: bool)

  /** The dialog's state. `qrData` is the payload behind `qrCodeUrl`, empty until made. */
  class PaymentDialog {
    const professionalId: string
    const walletAddress: string
    var form: PaymentForm
    var submitting: bool
    var open: bool
    var qrData: string

    constructor (professionalId: string, walletAddress: string)
      ensures this.professionalId == professionalId && this.walletAddress == walletAddress
      ensures form == EmptyPaymentForm && !submitting && !open && qrData == []
    {
      this.professionalId := professionalId;
      this.walletAddress := walletAddress;
      form := EmptyPaymentForm;
      submitting := false;
      open := false;
      qrData := [];
    }

    /** The effect on `[open, walletAddress]`: the QR payload is made only while the dialog
        is open and there is a wallet, and an earlier one is kept otherwise. */
    method SetOpen(value: bool)
      modifies this`open, this`qrData
      ensures open == value
      ensures value && walletAddress != [] ==> qrData == QrPayload(walletAddress)
      ensures !(value && walletAddress != []) ==> qrData == old(qrData)
    {
      open := value;
      if open && walletAddress != [] {
        qrData := QrPayload(walletAddress);
      }
    }

    method SetForm(f: PaymentForm)
      modifies this`form
      ensures form == f
    {
      form := f;
    }

    /** `handleSubmit`; `answer` is the backend's reply to the insert. */
    method HandleSubmit(session: Session, answer: Reply, parseFloat: string -> Option<real>, store: Table<Transaction>)
      returns (outcome: PaymentOutcome)
      modifies this`form, this`submitting, this`open, store
      ensures AmountRejected(old(form).amount, parseFloat) ==> outcome == InvalidAmount
      ensures !AmountRejected(old(form).amount, parseFloat) && session.Anonymous? ==> outcome == LoginRequired
      ensures outcome.PaymentInitiated? <==> !AmountRejected(old(form).amount, parseFloat) && session.SignedIn? && answer.Ok?
      ensures outcome == PaymentFailed <==> !AmountRejected(old(form).amount, parseFloat) && session.SignedIn? && answer.Err?
      ensures outcome.PaymentInitiated? ==> outcome.confirming == (old(form).txHash != [])
      ensures store.rows == if outcome.PaymentInitiated?
        then old(store.rows) + [TransactionOf(old(form), session.id, professionalId, walletAddress, parseFloat)]
        else old(store.rows)
      ensures outcome.PaymentInitiated? ==> form == EmptyPaymentForm && !open
      ensures !outcome.PaymentInitiated? ==> form == old(form) && open == old(open)
      ensures submitting == (outcome == InvalidAmount && old(submitting))
    {
      if AmountRejected(form.amount, parseFloat) {
        return InvalidAmount;
      }
      submitting := true;
      if session.Anonymous? {
        outcome := LoginRequired;
      } else {
        var t := TransactionOf(form, session.id, professionalId, walletAddress, parseFloat);
        store.Insert(t, answer);
        if answer.Ok? {
          outcome := PaymentInitiated(form.txHash != []);
          form := EmptyPaymentForm;
          open := false;
        } else {
          outcome := PaymentFailed;
        }
      }
      submitting := false;
    }
  }
}
