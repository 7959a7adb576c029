// Definitions shared by the modules.
module Prelude {
  type UserId = nat

  type Time = nat // seconds

  // How long a cached access version lives.
  const VERSION_TTL := 300

  datatype Option<+T> = None | Some(value: T) {
    function GetOr(default: T): T {
      if Some? then value else default
    }
  }

  // What a column holds after a commit: the ORM writes it when its value differs from the one it loaded.
  function Flushed<T(==)>(row: T, loaded: T, changed: T): T {
    if changed != loaded then changed else row
  }

  lemma SubsetIsNoLarger<T>(a: set<T>, b: set<T>)
    requires a <= b
    ensures |a| <= |b|
  {
    assert b == a + (b - a);
  }
}
