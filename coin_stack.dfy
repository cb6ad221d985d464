/** A coin pile of the wall-per-side worlds (impl/CoinStack.java): an entity holding an int counter. */
module CoinStacks {
  import opened JavaText

  class CoinStack {
    /** The field the stack was created for. */
    const x: int
    const y: int
    var numberOfCoins: JavaInt

    /** A new stack holds no coins. */
    constructor (x: int, y: int)
      ensures this.x == x && this.y == y && numberOfCoins == 0
    {
      this.x := x;
      this.y := y;
      numberOfCoins := 0;
    }

    /** putCoins: adds n with int arithmetic; nothing checks the sign of n. */
    method PutCoins(n: JavaInt)
      modifies this
      ensures numberOfCoins == IntAdd(old(numberOfCoins), n)
    {
      numberOfCoins := IntAdd(numberOfCoins, n);
    }

    /** pickCoins: subtracts n with int arithmetic; the count may go below zero. */
    method PickCoins(n: JavaInt)
      modifies this
      ensures numberOfCoins == IntSub(old(numberOfCoins), n)
    {
      numberOfCoins := IntSub(numberOfCoins, n);
    }
  }

  /** putCoins(n) then pickCoins(n) leaves a stack with the count it had. */
  method PutThenPick(s: CoinStack, n: JavaInt)
    modifies s
    ensures s.numberOfCoins == old(s.numberOfCoins)
  {
    s.PutCoins(n);
    s.PickCoins(n);
    SubUndoesAdd(old(s.numberOfCoins), n);
  }
}
