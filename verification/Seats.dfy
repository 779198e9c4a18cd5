/** tools/collabkit/seats.py: spellings of a seat and the canonical name they map to. */
module Seats {
  import opened Text
  import opened Frontmatter

  type Aliases = map<string, string>

  const BROADCAST := "all"

  /** The built-in table; COLLAB_SEAT_ALIASES may add to it or override it. */
  const BUILT_IN: Aliases := map[
    "builder" := "builder", "build" := "builder", "coordinator" := "builder", "coord" := "builder",
    "claude" := "builder", "dev" := "builder", "b" := "builder",
    "reviewer" := "reviewer", "review" := "reviewer", "reviewer-agent" := "reviewer", "critic" := "reviewer",
    "grok" := "reviewer", "r" := "reviewer",
    "user" := "user", "human" := "user", "me" := "user", "you" := "user", "phone" := "user", "telegram" := "user",
    "all" := "all", "any" := "all", "both" := "all", "*" := "all"]

  function Canonical(aliases: Aliases, raw: string, default: string): string {
    var text := Lower(Strip(raw));
    if text == "" then default else if text in aliases then aliases[text] else text
  }

  /** Aliases and their targets are stored stripped and in lower case. */
  predicate Tidied(aliases: Aliases) {
    forall k :: k in aliases ==> Plainly(k) && Plainly(aliases[k])
  }

  predicate Plainly(s: string) {
    Tight(s) && Lower(s) == s
  }

  /** No alias leads to a name that is itself an alias of another. */
  predicate Settled(aliases: Aliases) {
    forall k :: k in aliases ==> Leads(aliases, aliases[k]) == aliases[k]
  }

  function Leads(aliases: Aliases, name: string): string {
    if name in aliases then aliases[name] else name
  }

  function Counterpart(aliases: Aliases, seat: string): string {
    var c := Canonical(aliases, seat, "");
    if c == "builder" then "reviewer" else if c == "reviewer" then "builder" else c
  }

  lemma {:induction false} StripIsTight(s: string)
    ensures Strip(s) == "" || Tight(Strip(s))
  {
    LeftTrimmed(s);
    RightTrimmed(TrimLeft(s));
  }

  lemma {:induction false} LeftTrimmed(s: string)
    ensures TrimLeft(s) == "" || !IsSpace(TrimLeft(s)[0])
  {
    if s != "" && IsSpace(s[0]) {
      LeftTrimmed(s[1..]);
    }
  }

  lemma {:induction false} RightTrimmed(s: string)
    ensures var r := TrimRight(s); r <= s && (r == "" || !IsSpace(r[|r| - 1]))
  {
    if s != "" && IsSpace(s[|s| - 1]) {
      RightTrimmed(s[..|s| - 1]);
    }
  }

  lemma LowerTight(s: string)
    requires Tight(s)
    ensures Plainly(Lower(s))
  {
  }

  lemma CanonicalPlain(aliases: Aliases, name: string, default: string)
    requires Plainly(name)
    ensures Canonical(aliases, name, default) == Leads(aliases, name)
  {
  }

  lemma CanonicalIsPlain(aliases: Aliases, raw: string)
    requires Tidied(aliases)
    ensures var c := Canonical(aliases, raw, ""); c == "" || Plainly(c)
  {
    StripIsTight(raw);
    if Strip(raw) != "" {
      LowerTight(Strip(raw));
    }
  }

  /** A seat written back is the seat that was read, for every spelling, exactly when the table is
      settled. An override that renames a seat the table maps to breaks it. */
  lemma CanonicalIsStable(aliases: Aliases)
    requires Tidied(aliases)
    ensures (forall raw :: Canonical(aliases, Canonical(aliases, raw, ""), "") == Canonical(aliases, raw, ""))
      <==> Settled(aliases)
  {
    if Settled(aliases) {
      forall raw ensures Canonical(aliases, Canonical(aliases, raw, ""), "") == Canonical(aliases, raw, "") {
        CanonicalTwice(aliases, raw);
      }
    } else {
      var k :| k in aliases && Leads(aliases, aliases[k]) != aliases[k];
      CanonicalPlain(aliases, k, "");
      CanonicalPlain(aliases, aliases[k], "");
      assert Canonical(aliases, Canonical(aliases, k, ""), "") != Canonical(aliases, k, "");
    }
  }

  lemma CanonicalTwice(aliases: Aliases, raw: string)
    requires Tidied(aliases) && Settled(aliases)
    ensures Canonical(aliases, Canonical(aliases, raw, ""), "") == Canonical(aliases, raw, "")
  {
    var c := Canonical(aliases, raw, "");
    CanonicalIsPlain(aliases, raw);
    if c != "" {
      CanonicalPlain(aliases, c, "");
    }
  }

  predicate SeatWord(s: string) {
    s != "" && forall i :: 0 <= i < |s| ==> 'a' <= s[i] <= 'z' || s[i] == '-' || s[i] == '*'
  }

  lemma WordIsPlain(s: string)
    requires SeatWord(s)
    ensures Plainly(s)
  {
  }

  lemma BuiltInTargets(k: string)
    requires k in BUILT_IN
    ensures BUILT_IN[k] in {"builder", "reviewer", "user", "all"}
  {
  }

  lemma BuiltInKeys(k: string)
    requires k in BUILT_IN
    ensures SeatWord(k)
  {
  }

  lemma BuiltInFixed(t: string)
    requires t in {"builder", "reviewer", "user", "all"}
    ensures t in BUILT_IN && BUILT_IN[t] == t
  {
  }

  lemma BuiltInEntry(k: string)
    requires k in BUILT_IN
    ensures Plainly(k) && Plainly(BUILT_IN[k]) && Leads(BUILT_IN, BUILT_IN[k]) == BUILT_IN[k]
  {
    hide SeatWord, Plainly, BUILT_IN;
    BuiltInKeys(k);
    WordIsPlain(k);
    BuiltInTargets(k);
    BuiltInFixed(BUILT_IN[k]);
    BuiltInKeys(BUILT_IN[k]);
    WordIsPlain(BUILT_IN[k]);
  }

  lemma BuiltInIsSettled()
    ensures Tidied(BUILT_IN) && Settled(BUILT_IN)
    ensures BROADCAST in BUILT_IN && BUILT_IN[BROADCAST] == BROADCAST
  {
    hide Plainly, Leads, BUILT_IN;
    forall k | k in BUILT_IN ensures Plainly(k) && Plainly(BUILT_IN[k]) && Leads(BUILT_IN, BUILT_IN[k]) == BUILT_IN[k] {
      BuiltInEntry(k);
    }
    BuiltInFixed("all");
  }
}
