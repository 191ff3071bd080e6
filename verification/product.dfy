/**
 * One imported product row: its cast fields, the error list its checks
 * append to, the validity flag recomputed from that list, and the report
 * text built from it.
 */
module Products {
  import opened PhpValues
  import opened Rules

  datatype Option<T> = None | Some(value: T)

  /** A clock reading, already in the `Y-m-d H:i:s` form the store receives. */
  type Timestamp = string

  /**
   * One element pushed onto the error list: a plain message, or the
   * message array a failed validator returns, where each rule asked about
   * that did not fail contributes an empty string.
   */
  datatype ErrorEntry = Text(message: string) | Group(messages: seq<string>)

  /** The record handed to the parameterised insert. */
  datatype InsertRecord = InsertRecord(
    code: string,
    name: string,
    description: string,
    stock: int,
    cost: int,
    added: Timestamp,
    discontinued: Timestamp)

  function Leaves(e: ErrorEntry): seq<string> {
    match e
    case Text(m) => [m]
    case Group(ms) => ms
  }

  /** The report line for one message: tab-indented, or nothing when falsy. */
  function Line(m: string): string {
    if Truthy(m) then "\t" + m + "\n" else ""
  }

  /** The report block for a list of messages, one line per truthy message. */
  function FormatMessages(ms: seq<string>): string {
    if ms == [] then "" else FormatMessages(ms[..|ms| - 1]) + Line(ms[|ms| - 1])
  }

  /**
   * The report block for an error list: the lines of its messages in the
   * order a recursive walk of the nested list visits them.
   */
  function FormatEntries(es: seq<ErrorEntry>): string {
    if es == [] then "" else FormatEntries(es[..|es| - 1]) + FormatMessages(Leaves(es[|es| - 1]))
  }

  /** An entry that puts at least one line into the report. */
  predicate Speaks(e: ErrorEntry) {
    FormatMessages(Leaves(e)) != ""
  }

  function CodeMessage(code: string): string {
    "`" + code + "` is not a unique product code"
  }

  /** What the uniqueness check appends. */
  function CodeErrors(code: string, previousEntries: seq<string>): (r: seq<ErrorEntry>)
    ensures r != [] <==> code in previousEntries
    ensures r != [] ==> r == [Group([CodeMessage(code)])]
  {
    if IsKnownCode(code, previousEntries) then [Group([CodeMessage(code)])] else []
  }

  function CostMessage(text: string): string {
    "Cost must be a number to two decimal places, `" + text + "` given"
  }

  /**
   * What the cost check appends, stated by its outcome: the message array
   * for a negative cost, whose regex message names the cost, and nothing
   * otherwise (see `Product.ValidateCost` for the rule itself).
   */
  function CostErrors(cost: int): (r: seq<ErrorEntry>)
    ensures |r| <= 1
    ensures forall e :: e in r ==> Speaks(e)
  {
    if cost >= 0 then []
    else
      var leaves := [CostMessage(Render(cost)), ""];
      assert FormatMessages(leaves[..1]) != "" by {
        assert leaves[..1][..0] == [];
      }
      assert leaves[..|leaves| - 1] == leaves[..1];
      [Group(leaves)]
  }

  /** Everything `validateProduct` appends: code, then cost; the stock check never appends. */
  function ValidationErrors(code: string, stock: int, cost: int, previousEntries: seq<string>): (r: seq<ErrorEntry>)
    ensures r == [] <==> code !in previousEntries && cost >= 0
    ensures forall e :: e in r ==> Speaks(e)
  {
    var codeErrors := CodeErrors(code, previousEntries);
    assert forall e :: e in codeErrors ==> Speaks(e) by {
      var line := [CodeMessage(code)];
      assert line[..0] == [];
    }
    codeErrors + CostErrors(cost)
  }

  /**
   * What the eligibility rules append, the first that applies winning:
   * cheap and short of stock, else dearer than the maximum.
   */
  function EligibilityErrors(cost: int, stock: int, minCost: int, maxCost: int, minStock: int): (r: seq<ErrorEntry>)
    ensures |r| <= 1
    ensures r != [] <==> (cost < minCost && stock < minStock) || cost > maxCost
    ensures forall e :: e in r ==> Speaks(e)
  {
    if cost < minCost && stock < minStock then
      var m := "Product has less than " + Render(minStock) + " stock and costs less than £" + Render(minCost);
      assert [m][..0] == [];
      [Text(m)]
    else if cost > maxCost then
      var m := "Product costs more than £" + Render(maxCost);
      assert [m][..0] == [];
      [Text(m)]
    else
      []
  }

  lemma FormatMessagesStep(ms: seq<string>, j: nat)
    requires j < |ms|
    ensures forall prefix: string :: prefix + FormatMessages(ms[..j]) + Line(ms[j]) == prefix + FormatMessages(ms[..j + 1])
  {
    assert ms[..j + 1][..j] == ms[..j];
  }

  lemma FormatEntriesStep(es: seq<ErrorEntry>, i: nat)
    requires i < |es|
    ensures forall prefix: string :: prefix + FormatEntries(es[..i]) + FormatMessages(Leaves(es[i])) == prefix + FormatEntries(es[..i + 1])
  {
    assert es[..i + 1][..i] == es[..i];
  }

  /** A non-empty error list whose every entry speaks gives a non-empty report block. */
  lemma {:induction false} SpeakingErrorsGiveText(es: seq<ErrorEntry>)
    requires es != []
    requires forall e :: e in es ==> Speaks(e)
    ensures FormatEntries(es) != ""
  {
    assert es[|es| - 1] in es;
  }

  /**
   * A product row. The fields read from the CSV row never change after
   * construction; the methods push onto `importErrors`, recompute
   * `isValid` from it and append to `formatedMessages`.
   */
  class Product {
    const code: string
    const name: string
    const description: string
    const stock: int
    const cost: int
    const added: Timestamp
    const discontinuedDate: Option<Timestamp>
    var isValid: bool
    var formatedMessages: string
    var importErrors: seq<ErrorEntry>

    /** The flag never claims validity while an error is recorded. */
    ghost predicate Consistent()
      reads this
    {
      isValid ==> importErrors == []
    }

    /** Casts stock and cost to int; `now` is the clock reading of construction. */
    constructor (code: string, name: string, description: string,
                 stock: string, cost: string, discontinued: string, now: Timestamp)
      ensures this.code == code && this.name == name && this.description == description
      ensures this.stock == IntCast(stock)
      ensures this.cost == IntCast(cost)
      ensures added == now
      ensures discontinuedDate == if Truthy(discontinued) then Some(now) else None
      ensures !isValid && formatedMessages == [] && importErrors == []
    {
      this.code := code;
      this.name := name;
      this.description := description;
      this.stock := IntCast(stock);
      this.cost := IntCast(cost);
      added := now;
      discontinuedDate := if Truthy(discontinued) then Some(now) else None;
      isValid := false;
      formatedMessages := "";
      importErrors := [];
    }

    method GetCode() returns (c: string)
      ensures c == code
    {
      c := code;
    }

    method IsValid() returns (valid: bool)
      ensures valid == isValid
    {
      valid := isValid;
    }

    /** Runs the three field checks without short-circuit and recomputes the flag. */
    method ValidateProduct(previousEntries: seq<string>) returns (valid: bool)
      modifies this`importErrors, this`isValid
      ensures importErrors == old(importErrors) + ValidationErrors(code, stock, cost, previousEntries)
      ensures isValid == (importErrors == []) && valid == isValid
      ensures Consistent()
    {
      ValidateCode(previousEntries);
      ValidateCost();
      ValidateStock();
      isValid := importErrors == [];
      valid := isValid;
    }

    /**
     * Applies the eligibility rules to a valid product: at most one message
     * is added and the flag is recomputed. An invalid product is untouched.
     */
    method ToBeInserted(minCost: int, maxCost: int, minStock: int) returns (valid: bool)
      requires Consistent()
      modifies this`importErrors, this`isValid
      ensures importErrors == old(importErrors) + if old(isValid) then EligibilityErrors(cost, stock, minCost, maxCost, minStock) else []
      ensures !old(isValid) ==> !isValid
      ensures old(isValid) ==> (isValid <==> !((cost < minCost && stock < minStock) || cost > maxCost))
      ensures valid == isValid
      ensures Consistent()
    {
      if isValid {
        if cost < minCost && stock < minStock {
          importErrors := importErrors + [Text("Product has less than " + Render(minStock) + " stock and costs less than £" + Render(minCost))];
        } else if cost > maxCost {
          importErrors := importErrors + [Text("Product costs more than £" + Render(maxCost))];
        }
        isValid := importErrors == [];
      }
      valid := isValid;
    }

    /** Appends an error exactly when the code was accepted earlier in the run. */
    method ValidateCode(previousEntries: seq<string>)
      modifies this`importErrors
      ensures importErrors == old(importErrors) + CodeErrors(code, previousEntries)
    {
      if IsKnownCode(code, previousEntries) {
        importErrors := importErrors + [Group([CodeMessage(code)])];
      }
    }

    method ValidateStock()
      modifies this`importErrors
      ensures importErrors == old(importErrors)
    {
      var s := Render(stock);
      if !StockRulePasses(s) {
        var intMessage := if IsIntegerLiteral(s) then "" else "Stock value must be an integer, `" + s + "` given";
        importErrors := importErrors + [Group([intMessage, ""])];
      }
      StockRuleAcceptsEveryInt(stock);
    }

    method ValidateCost()
      modifies this`importErrors
      ensures importErrors == old(importErrors) + CostErrors(cost)
    {
      var s := Render(cost);
      if !CostRulePasses(s) {
        var regexMessage := if MatchesCostPattern(s) then "" else CostMessage(s);
        importErrors := importErrors + [Group([regexMessage, ""])];
      }
      CostRuleAcceptsExactlyNonNegative(cost);
      RenderHasNoWhitespace(cost);
    }

    /** Appends the report line for one message. */
    method FormatMessage(message: string)
      modifies this`formatedMessages
      ensures formatedMessages == old(formatedMessages) + Line(message)
    {
      if Truthy(message) {
        formatedMessages := formatedMessages + "\t" + message + "\n";
      }
    }

    /**
     * Walks every message of the error list in order, appending its line to
     * `formatedMessages`, and returns the field. The field is never reset.
     */
    method GetMessages() returns (text: string)
      modifies this`formatedMessages
      ensures formatedMessages == old(formatedMessages) + FormatEntries(importErrors)
      ensures text == formatedMessages
    {
      var errors := importErrors;
      ghost var start := formatedMessages;
      var i := 0;
      while i < |errors|
        invariant 0 <= i <= |errors|
        invariant formatedMessages == start + FormatEntries(errors[..i])
      {
        var leaves := Leaves(errors[i]);
        ghost var before := formatedMessages;
        var j := 0;
        while j < |leaves|
          invariant 0 <= j <= |leaves|
          invariant formatedMessages == before + FormatMessages(leaves[..j])
        {
          FormatMessage(leaves[j]);
          FormatMessagesStep(leaves, j);
          j := j + 1;
        }
        assert leaves[..j] == leaves;
        FormatEntriesStep(errors, i);
        i := i + 1;
      }
      assert errors[..i] == errors;
      text := formatedMessages;
    }

    /** The insert record; `discontinued` is formatted from `added`, as in the source. */
    function ToArray(): (r: InsertRecord)
      ensures r.code == code && r.name == name && r.description == description
      ensures r.stock == stock && r.cost == cost
      ensures r.added == added && r.discontinued == added
    {
      InsertRecord(code, name, description, stock, cost, added, added)
    }
  }
}
