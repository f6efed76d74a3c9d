/** What the form remembers about attempts (internal/roster/roster.go). Times are nanoseconds. */
module Roster {

  datatype Counter = Counter(n: nat, until: int)

  datatype Book<!Id> = Book(burned: map<string, int>, fails: map<Id, Counter>, locks: map<Id, int>)

  function Empty<Id>(): Book<Id> { Book(map[], map[], map[]) }

  /** True when the id was not burned, or no longer: it is burned now. */
  function Burn<Id>(b: Book<Id>, key: string, now: int, ttl: int): (Book<Id>, bool) {
    if key in b.burned && now < b.burned[key] then (b, false)
    else (b.(burned := b.burned[key := now + ttl]), true)
  }

  /** A counter past its window has nothing in it. */
  function Standing<Id(==)>(b: Book<Id>, scope: Id, now: int): nat {
    if scope in b.fails && now <= b.fails[scope].until then b.fails[scope].n else 0
  }

  function Fail<Id>(b: Book<Id>, scope: Id, now: int, window: int): (Book<Id>, nat) {
    var n := Standing(b, scope, now) + 1;
    (b.(fails := b.fails[scope := Counter(n, now + window)]), n)
  }

  function Clear<Id>(b: Book<Id>, scope: Id): Book<Id> {
    b.(fails := b.fails - {scope}, locks := b.locks - {scope})
  }

  function Lock<Id>(b: Book<Id>, scope: Id, now: int, d: int): Book<Id> {
    b.(locks := b.locks[scope := now + d], fails := b.fails - {scope})
  }

  function LockedFor<Id>(b: Book<Id>, scope: Id, now: int): (Book<Id>, int) {
    if scope !in b.locks then (b, 0)
    else if b.locks[scope] - now <= 0 then (b.(locks := b.locks - {scope}), 0)
    else (b, b.locks[scope] - now)
  }

  /** The roster of a process without Redis: three maps behind one mutex. */
  class Memory<!Id(==)> {
    var burned: map<string, int>
    var fails: map<Id, Counter>
    var locks: map<Id, int>

    ghost function Value(): Book<Id>
      reads this
    {
      Book(burned, fails, locks)
    }

    constructor ()
      ensures Value() == Empty()
    {
      burned, fails, locks := map[], map[], map[];
    }

    method TryBurn(key: string, now: int, ttl: int) returns (ok: bool)
      modifies this
      ensures (Value(), ok) == Burn(old(Value()), key, now, ttl)
    {
      if key in burned && now < burned[key] { return false; }
      burned := burned[key := now + ttl];
      return true;
    }

    method CountFailure(scope: Id, now: int, window: int) returns (n: nat)
      modifies this
      ensures (Value(), n) == Fail(old(Value()), scope, now, window)
    {
      var c := if scope in fails then fails[scope] else Counter(0, now);
      if now > c.until { c := Counter(0, now); }
      n := c.n + 1;
      fails := fails[scope := Counter(n, now + window)];
    }

    method Forget(scope: Id)
      modifies this
      ensures Value() == Clear(old(Value()), scope)
    {
      fails := fails - {scope};
      locks := locks - {scope};
    }

    method SetLock(scope: Id, now: int, d: int)
      modifies this
      ensures Value() == Lock(old(Value()), scope, now, d)
    {
      locks := locks[scope := now + d];
      fails := fails - {scope};
    }

    method LockLeft(scope: Id, now: int) returns (left: int)
      modifies this
      ensures (Value(), left) == LockedFor(old(Value()), scope, now)
    {
      if scope !in locks { return 0; }
      left := locks[scope] - now;
      if left <= 0 {
        locks := locks - {scope};
        return 0;
      }
    }
  }
}
