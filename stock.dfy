/**
 * The stock ledger of the workshop: a map from potion name to a count that
 * is kept between 0 and MAX_STOCK (class StockManager in Project.cpp).
 */
module Stock {

  /** The ceiling of every count; a freshly initialised entry starts here. */
  const MAX_STOCK: int := 3

  /** Every count in the ledger lies in [0, MAX_STOCK]. */
  predicate InRange(stock: map<string, int>)
  {
    forall name :: name in stock ==> 0 <= stock[name] <= MAX_STOCK
  }

  /** A dispense succeeds: the name is known and its count is positive. */
  predicate CanDispense(stock: map<string, int>, name: string)
  {
    name in stock && stock[name] > 0
  }

  /** A return takes effect: the name is known and its count is below the ceiling. */
  predicate CanReturn(stock: map<string, int>, name: string)
  {
    name in stock && stock[name] < MAX_STOCK
  }

  /** The ledger after one dispense of `name`: one less of it, floored at 0. */
  function AfterDispense(stock: map<string, int>, name: string): (after: map<string, int>)
    ensures after.Keys == stock.Keys
    ensures forall other :: other in stock && other != name ==> after[other] == stock[other]
    ensures name in stock ==> after[name] == if stock[name] > 0 then stock[name] - 1 else stock[name]
    ensures InRange(stock) ==> InRange(after)
  {
    if CanDispense(stock, name) then stock[name := stock[name] - 1] else stock
  }

  /** The ledger after one return of `name`: one more of it, capped at MAX_STOCK. */
  function AfterReturn(stock: map<string, int>, name: string): (after: map<string, int>)
    ensures after.Keys == stock.Keys
    ensures forall other :: other in stock && other != name ==> after[other] == stock[other]
    ensures name in stock ==> after[name] == if stock[name] < MAX_STOCK then stock[name] + 1 else stock[name]
    ensures InRange(stock) ==> InRange(after)
  {
    if CanReturn(stock, name) then stock[name := stock[name] + 1] else stock
  }

  /** The ledger after `times` dispenses of `name` in a row. */
  function DispenseRepeatedly(stock: map<string, int>, name: string, times: nat): map<string, int>
  {
    if times == 0 then stock else AfterDispense(DispenseRepeatedly(stock, name, times - 1), name)
  }

  /** The ledger after `times` returns of `name` in a row. */
  function ReturnRepeatedly(stock: map<string, int>, name: string, times: nat): map<string, int>
  {
    if times == 0 then stock else AfterReturn(ReturnRepeatedly(stock, name, times - 1), name)
  }

  /** A dispense or return on an unknown name changes nothing and creates no entry. */
  lemma UnknownNameUntouched(stock: map<string, int>, name: string)
    requires name !in stock
    ensures AfterDispense(stock, name) == stock && name !in AfterDispense(stock, name)
    ensures AfterReturn(stock, name) == stock && name !in AfterReturn(stock, name)
    ensures !CanDispense(stock, name) && !CanReturn(stock, name)
  {
  }

  /** A dispense followed by a return restores a count of at least one. */
  lemma DispenseThenReturn(stock: map<string, int>, name: string)
    requires InRange(stock) && CanDispense(stock, name)
    ensures AfterReturn(AfterDispense(stock, name), name) == stock
  {
    var after := AfterDispense(stock, name);
    assert CanReturn(after, name);
  }

  /** A return followed by a dispense restores a count below the ceiling. */
  lemma ReturnThenDispense(stock: map<string, int>, name: string)
    requires InRange(stock) && CanReturn(stock, name)
    ensures AfterDispense(AfterReturn(stock, name), name) == stock
  {
    var after := AfterReturn(stock, name);
    assert CanDispense(after, name);
  }

  /**
   * Dispensing is clamped at 0: after `times` dispenses a count k becomes
   * max(k - times, 0), every other entry unchanged; so once empty, any
   * further dispense leaves the ledger as it is.
   */
  lemma {:induction false} DispenseFloor(stock: map<string, int>, name: string, times: nat)
    requires name in stock && stock[name] >= 0
    ensures DispenseRepeatedly(stock, name, times).Keys == stock.Keys
    ensures DispenseRepeatedly(stock, name, times)[name] == if stock[name] >= times then stock[name] - times else 0
    ensures forall other :: other in stock && other != name ==> DispenseRepeatedly(stock, name, times)[other] == stock[other]
  {
    if times > 0 {
      DispenseFloor(stock, name, times - 1);
    }
  }

  /**
   * Returning is clamped at MAX_STOCK: after `times` returns a count k becomes
   * min(k + times, MAX_STOCK), every other entry unchanged.
   */
  lemma {:induction false} ReturnCeiling(stock: map<string, int>, name: string, times: nat)
    requires name in stock && stock[name] <= MAX_STOCK
    ensures ReturnRepeatedly(stock, name, times).Keys == stock.Keys
    ensures ReturnRepeatedly(stock, name, times)[name] == if stock[name] + times <= MAX_STOCK then stock[name] + times else MAX_STOCK
    ensures forall other :: other in stock && other != name ==> ReturnRepeatedly(stock, name, times)[other] == stock[other]
  {
    if times > 0 {
      ReturnCeiling(stock, name, times - 1);
    }
  }

  /** The stock manager: owns the ledger and mutates it in place. */
  class StockManager {
    var potionStock: map<string, int>

    /** The class invariant: every count lies in [0, MAX_STOCK]. */
    ghost predicate Valid()
      reads this
    {
      InRange(potionStock)
    }

    constructor ()
      ensures Valid() && potionStock == map[]
    {
      potionStock := map[];
    }

    /** Sets the count of `potionName` to MAX_STOCK, overwriting any earlier value. */
    method InitializeStock(potionName: string)
      requires Valid()
      modifies this
      ensures Valid()
      ensures potionStock == old(potionStock)[potionName := MAX_STOCK]
    {
      potionStock := potionStock[potionName := MAX_STOCK];
    }

    /**
     * Hands out one potion: fails on an unknown name (creating no entry)
     * and on an empty count, otherwise lowers that one count by one.
     */
    method DispensePotion(potionName: string) returns (dispensed: bool)
      requires Valid()
      modifies this
      ensures Valid()
      ensures dispensed == CanDispense(old(potionStock), potionName)
      ensures potionStock == AfterDispense(old(potionStock), potionName)
    {
      if potionName !in potionStock {
        return false;
      }
      if potionStock[potionName] > 0 {
        potionStock := potionStock[potionName := potionStock[potionName] - 1];
        return true;
      } else {
        return false;
      }
    }

    /**
     * Takes one potion back: ignored on an unknown name and at MAX_STOCK,
     * otherwise raises that one count by one.
     */
    method ReturnPotion(potionName: string)
      requires Valid()
      modifies this
      ensures Valid()
      ensures potionStock == AfterReturn(old(potionStock), potionName)
    {
      if potionName !in potionStock {
        return;
      }
      if potionStock[potionName] < MAX_STOCK {
        potionStock := potionStock[potionName := potionStock[potionName] + 1];
      }
    }

    /** The count of `potionName`; 0 is the default for a name never initialised. */
    method GetStock(potionName: string) returns (count: int)
      ensures potionName !in potionStock ==> count == 0
      ensures potionName in potionStock ==> count == potionStock[potionName]
      ensures Valid() ==> 0 <= count <= MAX_STOCK
    {
      if potionName !in potionStock {
        return 0;
      }
      return potionStock[potionName];
    }
  }
}
