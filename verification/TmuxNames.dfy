/**
  The names Sanctel gives to tmux sessions and windows: the sanitizer, the `term-N` window
  counter, and the `<base>__<window>` session names (tmux_cli.rs and lib.rs).
*/
module TmuxNames {
  import opened Wrappers
  import opened Decimal

  const U64_MAX: nat := 0xFFFF_FFFF_FFFF_FFFF
  const TERM := "term-"
  const SEPARATOR := "__"

  // ---------- the sanitizer ----------

  predicate IsSafe(c: char) {
    'a' <= c <= 'z' || 'A' <= c <= 'Z' || '0' <= c <= '9' || c == '_' || c == '-'
  }

  function TmuxSafe(s: string): string {
    seq(|s|, i requires 0 <= i < |s| => if IsSafe(s[i]) then s[i] else '_')
  }

  /** Sanitizing yields only safe characters, keeps every character that was safe, and changes
      nothing the second time. */
  lemma TmuxSafeIdempotent(s: string)
    ensures forall c | c in TmuxSafe(s) :: IsSafe(c)
    ensures (forall c | c in s :: IsSafe(c)) <==> TmuxSafe(s) == s
    ensures TmuxSafe(TmuxSafe(s)) == TmuxSafe(s)
  {
    var t := TmuxSafe(s);
    assert forall i | 0 <= i < |t| :: IsSafe(t[i]);
    if t == s {
    } else {
      var i :| 0 <= i < |s| && t[i] != s[i];
      assert s[i] in s && !IsSafe(s[i]);
    }
  }

  /** The safe characters by their ASCII codes: digits, letters, underscore and hyphen. */
  lemma SafeCharacters(c: char)
    ensures var n := c as int;
            IsSafe(c) <==> 48 <= n <= 57 || 65 <= n <= 90 || 97 <= n <= 122 || n == 95 || n == 45
  {
  }

  // ---------- the window counter ----------

  /** The text after `term-` when it is a nonempty run of digits. */
  function TermDigits(name: string): Option<string> {
    if TERM <= name && name[5..] != "" && AllDigits(name[5..]) then Some(name[5..]) else None
  }

  /** The index of a window name. A digit run too large for a `u64` has none. */
  function TermIndex(name: string): (n: Option<nat>)
    ensures n.Some? ==> TermDigits(name).Some? && n.value == Value(TermDigits(name).value) <= U64_MAX
  {
    var digits := TermDigits(name);
    if digits.Some? && Value(digits.value) <= U64_MAX then Some(Value(digits.value)) else None
  }

  /** The bare prefix, a sign or any other character after it, and a number past the last `u64` give
      no index; every other digit run does, leading zeros included. */
  lemma TermIndexIff(rest: string)
    ensures TermIndex("term-" + rest).Some? <==>
            rest != "" && AllDigits(rest) && Value(rest) <= 0xFFFF_FFFF_FFFF_FFFF
    ensures forall name | name == "" || name[0] != 't' :: TermIndex(name).None?
  {
    assert ("term-" + rest)[5..] == rest;
  }

  function TermName(n: nat): (name: string)
    ensures TermDigits(name) == Some(Print(n))
    ensures n <= U64_MAX ==> TermIndex(name) == Some(n)
    ensures '_' !in name
  {
    var name := TERM + Print(n);
    assert name[5..] == Print(n);
    name
  }

  /** The largest index among the names, 0 when there is none. */
  function MaxIndex(existing: seq<string>): nat {
    if existing == [] then 0
    else
      var max := MaxIndex(existing[..|existing| - 1]);
      var index := TermIndex(existing[|existing| - 1]);
      if index.Some? && index.value > max then index.value else max
  }

  /** `max + 1` on a `u64`, which wraps in a release build. */
  function NextIndex(max: nat): nat
    requires max <= U64_MAX
  {
    if max == U64_MAX then 0 else max + 1
  }

  lemma {:induction false} MaxIndexIsGreatest(existing: seq<string>)
    ensures MaxIndex(existing) <= U64_MAX
    ensures forall e | e in existing && TermIndex(e).Some? :: TermIndex(e).value <= MaxIndex(existing)
    ensures MaxIndex(existing) == 0 || exists e :: e in existing && TermIndex(e) == Some(MaxIndex(existing))
  {
    if existing != [] {
      var front := existing[..|existing| - 1];
      MaxIndexIsGreatest(front);
      assert existing == front + [existing[|existing| - 1]];
      assert existing[|existing| - 1] in existing;
    }
  }

  /** Order and repetition of the listing do not matter. */
  lemma MaxIndexIgnoresOrder(a: seq<string>, b: seq<string>)
    requires forall e :: e in a <==> e in b
    ensures MaxIndex(a) == MaxIndex(b)
  {
    MaxIndexIsGreatest(a);
    MaxIndexIsGreatest(b);
  }

  function AllocatedName(existing: seq<string>): string {
    MaxIndexIsGreatest(existing);
    TermName(NextIndex(MaxIndex(existing)))
  }

  /** The allocator's promise, and exactly when it holds: the name lies strictly above every
      index in use iff the counter has not reached the last `u64`; it is unused iff, in
      addition to that, or instead of it, the name the counter wraps to is free. */
  lemma AllocatedNameIsFresh(existing: seq<string>)
    ensures MaxIndex(existing) < U64_MAX <==>
            forall e | e in existing && TermIndex(e).Some? ::
              TermIndex(AllocatedName(existing)).Some? && TermIndex(e).value < TermIndex(AllocatedName(existing)).value
    ensures AllocatedName(existing) !in existing <==>
            MaxIndex(existing) < U64_MAX || TermName(0) !in existing
  {
    MaxIndexIsGreatest(existing);
  }

  /** Closing a window can give its index to the next tab, although the comment on the allocator
      says it never does: exactly when it was above every other index and right above one. */
  lemma ClosedIndexIsReusedIff(others: seq<string>, n: nat)
    requires 1 <= n <= U64_MAX
    ensures AllocatedName(others) == TermName(n) <==>
            && (forall e | e in others && TermIndex(e).Some? :: TermIndex(e).value < n)
            && (n == 1 || exists e :: e in others && TermIndex(e) == Some((n - 1) as nat))
  {
    MaxIndexIsGreatest(others);
    assert TermIndex(TermName(n)) == Some(n);
    assert TermIndex(TermName(NextIndex(MaxIndex(others)))) == Some(NextIndex(MaxIndex(others)));
  }

  method AllocateWindowName(existing: seq<string>) returns (name: string)
    ensures name == AllocatedName(existing)
    ensures MaxIndex(existing) < U64_MAX ==> name !in existing
  {
    var max := 0;
    for i := 0 to |existing|
      invariant max == MaxIndex(existing[..i])
    {
      assert existing[..i + 1][..i] == existing[..i];
      var index := TermIndex(existing[i]);
      if index.Some? && index.value > max {
        max := index.value;
      }
    }
    assert existing[..|existing|] == existing;
    AllocatedNameIsFresh(existing);
    MaxIndexIsGreatest(existing);
    name := TermName(NextIndex(max));
  }

  // ---------- session names ----------

  function JoinSession(base: string, window: string): string {
    base + SEPARATOR + window
  }

  function SessionBase(worktreeId: Option<string>, profileId: string): string {
    match worktreeId
    case Some(id) => "sanctel_wt_" + TmuxSafe(id)
    case None => "sanctel_detached_" + TmuxSafe(profileId)
  }

  function SessionName(worktreeId: Option<string>, profileId: string, window: string): string {
    JoinSession(SessionBase(worktreeId, profileId), window)
  }

  predicate IsSanctelSession(session: string) {
    "sanctel_wt_" <= session || "sanctel_detached_" <= session
  }

  /** Every session a tab can have is Sanctel's, and the others are those without either prefix. */
  lemma TabSessionsAreSanctels(worktreeId: Option<string>, profileId: string, window: string, session: string)
    ensures IsSanctelSession(SessionName(worktreeId, profileId, window))
    ensures IsSanctelSession(session) <==>
            exists rest :: session == Prefixed("sanctel_wt_", rest) || session == Prefixed("sanctel_detached_", rest)
  {
    var base := SessionBase(worktreeId, profileId);
    assert base <= SessionName(worktreeId, profileId, window);
    if "sanctel_wt_" <= session {
      assert session == Prefixed("sanctel_wt_", session[11..]);
    } else if "sanctel_detached_" <= session {
      assert session == Prefixed("sanctel_detached_", session[17..]);
    }
  }

  function Prefixed(prefix: string, rest: string): string {
    prefix + rest
  }

  /** The longer window could be taken for the shorter one on a longer base. */
  predicate ExtendsBy(longer: string, shorter: string) {
    || longer == "_" + shorter
    || (|longer| >= |shorter| + 2 && longer[|longer| - |shorter| - 2..] == SEPARATOR + shorter)
  }

  lemma LongerWindowExtends(b1: string, w1: string, b2: string, w2: string)
    requires |w1| < |w2| && JoinSession(b1, w1) == JoinSession(b2, w2)
    ensures ExtendsBy(w2, w1)
  {
    var s, d := JoinSession(b1, w1), |w2| - |w1|;
    assert s[|s| - |w1|..] == w1 && s[|s| - |w2|..] == w2;
    assert s[|s| - |w1| - 2..] == SEPARATOR + w1;
    assert w2[d..] == w1;
    if d == 1 {
      assert w2[0] == s[|s| - |w2|] == '_';
      assert w2 == [w2[0]] + w2[1..];
    } else {
      assert w2[d - 2..] == s[|s| - |w1| - 2..];
    }
  }

  /** Two different bases that give one session name. */
  lemma ExtensionCollides(w1: string, w2: string) returns (b1: string, b2: string)
    requires ExtendsBy(w2, w1)
    ensures JoinSession(b1, w1) == JoinSession(b2, w2) && b1 != b2
  {
    b2 := "";
    if w2 == "_" + w1 {
      b1 := "_";
      assert JoinSession(b1, w1) == "_" + "__" + w1 && JoinSession(b2, w2) == "__" + "_" + w1;
    } else {
      var x := w2[..|w2| - |w1| - 2];
      b1 := SEPARATOR + x;
      assert w2 == x + (SEPARATOR + w1);
      assert JoinSession(b1, w1) == SEPARATOR + x + SEPARATOR + w1;
    }
  }

  /** Base and window can be read back from the session names of two windows. */
  ghost predicate Decodes(w1: string, w2: string) {
    forall b1, b2 :: JoinSession(b1, w1) == JoinSession(b2, w2) ==> b1 == b2 && w1 == w2
  }

  lemma JoinDecodes(b1: string, w1: string, b2: string, w2: string)
    requires !ExtendsBy(w1, w2) && !ExtendsBy(w2, w1) && JoinSession(b1, w1) == JoinSession(b2, w2)
    ensures b1 == b2 && w1 == w2
  {
    if |w1| < |w2| {
      LongerWindowExtends(b1, w1, b2, w2);
    } else if |w2| < |w1| {
      LongerWindowExtends(b2, w2, b1, w1);
    } else {
      var s := JoinSession(b1, w1);
      assert b1 == s[..|b1|] && b2 == s[..|b2|];
      assert w1 == s[|b1| + 2..] && w2 == s[|b2| + 2..];
    }
  }

  /** The separator decodes two windows, on all bases, exactly when neither extends the other. */
  lemma DecodesIff(w1: string, w2: string)
    ensures Decodes(w1, w2) <==> !ExtendsBy(w1, w2) && !ExtendsBy(w2, w1)
  {
    if ExtendsBy(w2, w1) {
      var b1, b2 := ExtensionCollides(w1, w2);
    } else if ExtendsBy(w1, w2) {
      var b2, b1 := ExtensionCollides(w2, w1);
    } else {
      forall b1, b2 | JoinSession(b1, w1) == JoinSession(b2, w2) ensures b1 == b2 && w1 == w2 {
        JoinDecodes(b1, w1, b2, w2);
      }
    }
  }

  lemma ExtensionHasUnderscore(longer: string, shorter: string)
    ensures ExtendsBy(longer, shorter) ==> '_' in longer
  {
    assert longer == "_" + shorter ==> longer[0] == '_';
    if |longer| >= |shorter| + 2 && longer[|longer| - |shorter| - 2..] == SEPARATOR + shorter {
      assert longer[|longer| - |shorter| - 2..][0] == '_';
    }
  }

  /** So a window name without `_` and its base can be read back from the session name, whatever
      the base is: the sanitizer may leave `__` inside a base, but the window name has none. */
  lemma SessionNameDecodes(b1: string, w1: string, b2: string, w2: string)
    requires '_' !in w1 && '_' !in w2
    requires JoinSession(b1, w1) == JoinSession(b2, w2)
    ensures b1 == b2 && w1 == w2
  {
    ExtensionHasUnderscore(w1, w2);
    ExtensionHasUnderscore(w2, w1);
    DecodesIff(w1, w2);
  }

  predicate HasDoubleUnderscore(s: string) {
    exists i :: 0 <= i < |s| - 1 && s[i] == '_' && s[i + 1] == '_'
  }

  predicate BecomesUnderscore(c: char) {
    c == '_' || !IsSafe(c)
  }

  /** The sanitizer leaves `__` exactly where two neighbours are each `_` or unsafe. */
  lemma SanitizedHasDoubleIff(s: string)
    ensures HasDoubleUnderscore(TmuxSafe(s)) <==>
            exists i :: 0 <= i < |s| - 1 && BecomesUnderscore(s[i]) && BecomesUnderscore(s[i + 1])
  {
    var t := TmuxSafe(s);
    assert forall i | 0 <= i < |s| :: t[i] == '_' <==> BecomesUnderscore(s[i]);
    if exists i :: 0 <= i < |s| - 1 && BecomesUnderscore(s[i]) && BecomesUnderscore(s[i + 1]) {
      var i :| 0 <= i < |s| - 1 && BecomesUnderscore(s[i]) && BecomesUnderscore(s[i + 1]);
      assert t[i] == '_' && t[i + 1] == '_';
    }
  }

  /** The comment that `tmux_safe` only produces single underscores is wrong, and window names
      with `_` do not decode: both witnesses. */
  lemma SeparatorIsNotUniqueInGeneral()
    ensures TmuxSafe("a::b") == "a__b"
    ensures SessionName(Some("x__y"), "p", "z") == SessionName(Some("x"), "p", "y__z")
  {
    assert TmuxSafe("x__y") == "x__y" && TmuxSafe("x") == "x";
    assert "sanctel_wt_" + "x__y" + "__" + "z" == "sanctel_wt_" + "x" + "__" + "y__z";
  }

  /** The suffixes of the listed sessions that start with `<base>__`. */
  function Suffixes(base: string, listing: seq<string>): seq<string> {
    if listing == [] then []
    else
      var rest := Suffixes(base, listing[1..]);
      var prefix := base + SEPARATOR;
      if prefix <= listing[0] then [listing[0][|prefix|..]] + rest else rest
  }

  lemma {:induction false} SuffixesAreListed(base: string, listing: seq<string>, w: string)
    ensures w in Suffixes(base, listing) <==> JoinSession(base, w) in listing
  {
    if listing != [] {
      SuffixesAreListed(base, listing[1..], w);
      var prefix := base + SEPARATOR;
      var s := JoinSession(base, w);
      assert s in listing <==> s == listing[0] || s in listing[1..];
      assert s[..|prefix|] == prefix && s[|prefix|..] == w;
      if prefix <= listing[0] {
        assert listing[0] == prefix + listing[0][|prefix|..];
      }
    }
  }

  /** The allocator's scan sees exactly its own base's counted sessions: a listed session of
      another base never contributes an index, even when one base extends the other. */
  lemma ScanIgnoresOtherBases(base: string, other: string, digits: string)
    requires digits != "" && AllDigits(digits)
    ensures var session := JoinSession(other, TERM + digits);
            (base + SEPARATOR <= session && TermDigits(session[|base| + 2..]).Some?) <==> base == other
  {
    var session := JoinSession(other, TERM + digits);
    assert (TERM + digits)[5..] == digits;
    if base == other {
      assert session[..|base| + 2] == base + SEPARATOR;
      assert session[|base| + 2..] == TERM + digits;
    } else if base + SEPARATOR <= session && TermDigits(session[|base| + 2..]).Some? {
      var window := session[|base| + 2..];
      assert session == JoinSession(base, window);
      assert window == TERM + window[5..];
      SessionNameDecodes(base, window, other, TERM + digits);
    }
  }

  /** The part after the last `_`: the window a per-tab session is created with. */
  function OwnWindow(session: string): (w: string)
    ensures '_' !in w
  {
    if session == [] then []
    else
      var last := session[|session| - 1];
      if last == '_' then [] else OwnWindow(session[..|session| - 1]) + [last]
  }

  lemma {:induction false} OwnWindowOfJoin(base: string, w: string)
    requires '_' !in w
    ensures OwnWindow(JoinSession(base, w)) == w
  {
    var s := JoinSession(base, w);
    if w == [] {
      assert s[|s| - 1] == '_';
    } else {
      var front := w[..|w| - 1];
      assert s[..|s| - 1] == JoinSession(base, front);
      assert w == front + [w[|w| - 1]];
      assert w[|w| - 1] in w;
      OwnWindowOfJoin(base, front);
    }
  }
}
