/**
 * The payment panel (`updatePaymentDisplay`) and the guards before a receipt is
 * produced (`printReceipt`): both read the cart, its total and the amount field.
 */
module Payment {
  import opened Wrappers
  import opened Money
  import opened Cart

  /** What the print button says. */
  datatype PrintButton = AddItemsFirst | EnterPayment | Short(shortage: int) | ReadyToPrint

  datatype PaymentView = PaymentView(
    received: nat,       // the amount field's digits, 0 when there are none
    change: int,         // received - total, negative when short
    negative: bool,      // the "negative" style on the change
    printEnabled: bool,
    button: PrintButton)

  function PaymentDisplay(lineCount: nat, total: int, receivedRaw: string): (v: PaymentView)
    ensures v.received == ParseAmount(receivedRaw)
    ensures v.change == v.received - total
    ensures v.negative <==> v.received < total
    ensures v.printEnabled <==> lineCount > 0 && v.received > 0 && v.received >= total
    ensures v.button == AddItemsFirst <==> lineCount == 0
    ensures v.button == EnterPayment <==> lineCount > 0 && v.received == 0
    ensures v.button.Short? <==> lineCount > 0 && v.received > 0 && v.received < total
    ensures v.button == ReadyToPrint <==> v.printEnabled
    ensures v.button.Short? ==> v.button.shortage == total - v.received > 0
  {
    var received := ParseAmount(receivedRaw);
    var change := received - total;
    var hasItems := lineCount > 0;
    var hasPayment := received > 0;
    var sufficient := received >= total;
    PaymentView(
      received, change, change < 0,
      hasItems && hasPayment && sufficient,
      if !hasItems then AddItemsFirst
      else if !hasPayment then EnterPayment
      else if !sufficient then Short(total - received)
      else ReadyToPrint)
  }

  /** The snapshot a successful print is made from. */
  datatype Receipt = Receipt(lines: seq<Line>, total: int, received: nat, change: int)

  datatype FinalizeError = EmptyCart | Insufficient(shortage: int)

  /** The two guards of `printReceipt`, in order. */
  function Finalize(lines: seq<Line>, total: int, receivedRaw: string): (r: Result<Receipt, FinalizeError>)
    ensures r.Success? <==> |lines| > 0 && ParseAmount(receivedRaw) >= total
    ensures r == Failure(EmptyCart) <==> |lines| == 0
    ensures r.Failure? && r.error.Insufficient? ==> r.error.shortage == total - ParseAmount(receivedRaw) > 0
    ensures r.Success? ==>
      (r.value.lines == lines && r.value.total == total &&
       r.value.received == ParseAmount(receivedRaw) && r.value.change == r.value.received - total >= 0)
  {
    var received := ParseAmount(receivedRaw);
    if |lines| == 0 then Failure(EmptyCart)
    else if received < total then Failure(Insufficient(total - received))
    else Success(Receipt(lines, total, received, received - total))
  }

  /** The text of the change display: the magnitude of the change, formatted as currency. */
  function ChangeText(v: PaymentView): string {
    FormatCurrency(Abs(v.change))
  }

  /** The change is shown as its magnitude: reading the shown text back gives |change|. */
  lemma ChangeShownAsMagnitude(v: PaymentView)
    ensures ParseAmount(ChangeText(v)) == Abs(v.change)
  {
    FormatThenParse(Abs(v.change));
  }

  /** An enabled print button always leads past both guards. */
  lemma EnabledPrintFinalizes(lines: seq<Line>, total: int, receivedRaw: string)
    requires PaymentDisplay(|lines|, total, receivedRaw).printEnabled
    ensures Finalize(lines, total, receivedRaw).Success?
  {
  }

  /**
   * On a cart of valid lines with its true total the button and the guards agree:
   * printing is enabled exactly when finalizing succeeds, "add items first" is
   * the empty-cart refusal, and the shortfall shown is the one refused with.
   */
  lemma DisplayAgreesWithFinalize(lines: seq<Line>, receivedRaw: string)
    requires forall i :: 0 <= i < |lines| ==> ValidLine(lines[i])
    ensures var v := PaymentDisplay(|lines|, Total(lines), receivedRaw);
            var r := Finalize(lines, Total(lines), receivedRaw);
      && (v.printEnabled <==> r.Success?)
      && (v.button == AddItemsFirst <==> r == Failure(EmptyCart))
      && (v.button.Short? ==> r == Failure(Insufficient(v.button.shortage)))
      && (v.button == EnterPayment ==> r == Failure(Insufficient(Total(lines))))
  {
    TotalPositive(lines);
    var total := Total(lines);
    var received := ParseAmount(receivedRaw);
    var v := PaymentDisplay(|lines|, total, receivedRaw);
    var r := Finalize(lines, total, receivedRaw);
    if |lines| == 0 {
      assert v.button == AddItemsFirst && r == Failure(EmptyCart);
    } else if received == 0 {
      assert v.button == EnterPayment && r == Failure(Insufficient(total));
    } else if received < total {
      assert v.button == Short(total - received) && r == Failure(Insufficient(total - received));
    } else {
      assert v.button == ReadyToPrint && r.Success?;
    }
  }
}
