/** Rewriting the broker service's security descriptor for one coordinator. */
module ServiceAcl {
  import opened Wrappers

  /** Unicode white space, as `trim` strips it. */
  predicate IsSpace(c: char) {
    var n := c as int;
    || 0x09 <= n <= 0x0D || n == 0x20 || n == 0x85 || n == 0xA0 || n == 0x1680 || 0x2000 <= n <= 0x200A
    || n == 0x2028 || n == 0x2029 || n == 0x202F || n == 0x205F || n == 0x3000
  }

  function TrimStart(s: string): string {
    if s != [] && IsSpace(s[0]) then TrimStart(s[1..]) else s
  }

  function TrimEnd(s: string): string {
    if s != [] && IsSpace(s[|s| - 1]) then TrimEnd(s[..|s| - 1]) else s
  }

  function Trim(s: string): string {
    TrimEnd(TrimStart(s))
  }

  /** Where `c` first is; the length when it is nowhere. */
  function IndexOf(s: string, c: char): (i: nat)
    ensures i <= |s| && (i < |s| ==> s[i] == c) && forall k :: 0 <= k < i ==> s[k] != c
  {
    if s == [] then 0 else if s[0] == c then 0 else 1 + IndexOf(s[1..], c)
  }

  /** Where the two characters `a` and `b` first follow each other; the length when nowhere. */
  function IndexOfPair(s: string, a: char, b: char): (i: nat)
    ensures i <= |s| && (i < |s| ==> i + 1 < |s| && s[i] == a && s[i + 1] == b)
    ensures forall k :: 0 <= k < i && k + 1 < |s| ==> !(s[k] == a && s[k + 1] == b)
  {
    if s == [] then 0
    else if |s| > 1 && s[0] == a && s[1] == b then 0
    else 1 + IndexOfPair(s[1..], a, b)
  }

  // ------------------------------ access control entries ------------------------------

  type Test = string -> bool

  predicate EndsWith(s: string, suffix: string) {
    |s| >= |suffix| && s[|s| - |suffix|..] == suffix
  }

  /** The entries that go: Interactive Users under either name, and the coordinator's own. */
  function Goes(sid: string): Test {
    ace => EndsWith(ace, ";;;IU)") || EndsWith(ace, ";;;S-1-5-4)") || EndsWith(ace, ";;;" + sid + ")")
  }

  function AceFor(sid: string): string {
    "(A;;RPLC;;;" + sid + ")"
  }

  predicate NoOpen(text: string) {
    '(' !in text
  }

  /** An entry is a parenthesis up to the first that closes it. */
  predicate IsAce(a: string) {
    a != [] && a[0] == '(' && IndexOf(a, ')') == |a| - 1
  }

  /** Text up to the next entry, that entry with its parentheses, and what follows; no entry when
      none is left that is closed. */
  datatype Cut = Cut(text: string, ace: string, rest: string)

  type Scanner = string -> Cut

  function Next(t: string): Cut {
    var open := IndexOf(t, '(');
    var tail := t[open..];
    var close := IndexOf(tail, ')');
    if open == |t| || close == |tail| then Cut(t, "", "")
    else Cut(t[..open], tail[..close + 1], tail[close + 1..])
  }

  lemma NextCuts(t: string)
    ensures var c := Next(t);
            && c.text + (c.ace + c.rest) == t && (c.ace == [] ==> c == Cut(t, "", ""))
            && (c.ace != [] ==> NoOpen(c.text) && IsAce(c.ace))
  {
    var open := IndexOf(t, '(');
    var tail := t[open..];
    var close := IndexOf(tail, ')');
    if close < |tail| {
      FirstAt(tail[..close + 1], ')', close);
      Glued(t, open);
      Glued(tail, close + 1);
    }
  }

  lemma Glued(s: string, i: nat)
    requires i <= |s|
    ensures s[..i] + s[i..] == s
  {
  }

  lemma FirstAt(s: string, c: char, i: nat)
    requires i < |s| && s[i] == c && forall k :: 0 <= k < i ==> s[k] != c
    ensures IndexOf(s, c) == i
  {
    assert IndexOf(s, c) >= i;
  }

  /** The text without the entries that go. */
  function Filtered(t: string, goes: Test, next: Scanner): string
    decreases |t|
  {
    var c := next(t);
    if c.ace == [] || |c.rest| >= |t| then t
    else c.text + ((if goes(c.ace) then "" else c.ace) + Filtered(c.rest, goes, next))
  }

  /** The entries, in order. */
  function Aces(t: string, next: Scanner): seq<string>
    decreases |t|
  {
    var c := next(t);
    if c.ace == [] || |c.rest| >= |t| then [] else [c.ace] + Aces(c.rest, next)
  }

  /** The text between and around the entries. */
  function Between(t: string, next: Scanner): string
    decreases |t|
  {
    var c := next(t);
    if c.ace == [] || |c.rest| >= |t| then t else c.text + Between(c.rest, next)
  }

  function Staying(aces: seq<string>, goes: Test): seq<string> {
    if aces == [] then [] else (if goes(aces[0]) then [] else [aces[0]]) + Staying(aces[1..], goes)
  }

  // ------------------------------ the descriptor ------------------------------

  /** Everything through `D:`, the DACL, and everything from `S:` on. */
  datatype Descriptor = Descriptor(before: string, dacl: string, after: string)

  function Around(before: string, rest: string): Descriptor {
    var e := IndexOfPair(rest, 'S', ':');
    Descriptor(before, rest[..e], rest[e..])
  }

  function Parsed(s: string): Option<Descriptor> {
    var d := IndexOfPair(s, 'D', ':');
    if d == |s| then None else Some(Around(s[..d + 2], s[d + 2..]))
  }

  /** The new entry goes right behind `D:`, the filtered DACL behind it. */
  function Renewed(p: Descriptor, ace: string, goes: Test, next: Scanner): string {
    p.before + (ace + Filtered(p.dacl, goes, next)) + p.after
  }

  function Rewritten(sddl: string, sid: string, ace: string): Option<string> {
    var p := Parsed(Trim(sddl));
    if p.None? then None else Some(Renewed(p.value, ace, Goes(sid), Next))
  }

  method ReplaceCoordinatorAce(sddl: string, sid: string, ace: string) returns (r: Option<string>)
    ensures r == Rewritten(sddl, sid, ace)
  {
    var p := Parsed(Trim(sddl));
    if p.None? {
      return None;
    }
    var kept := KeepOthers(p.value.dacl, Goes(sid), Next);
    return Some(p.value.before + (ace + kept) + p.value.after);
  }

  /** `next` scans as `Next` does; the loop proof sees only `next`, so `Next` need not be unfolded. */
  ghost predicate Follows(next: Scanner) {
    forall t {:trigger Next(t)} :: next(t) == Next(t)
  }

  method Scan(t: string, ghost next: Scanner) returns (c: Cut)
    requires Follows(next)
    ensures c == next(t) && |c.rest| <= |t| && (c.ace != [] ==> |c.rest| < |t|)
    ensures '(' !in t ==> c.ace == []
  {
    c := Next(t);
    NextCuts(t);
    assert next(t) == Next(t);
  }

  /** The entry loop. */
  method KeepOthers(dacl: string, goes: Test, ghost next: Scanner) returns (kept: string)
    requires Follows(next)
    ensures kept == Filtered(dacl, goes, next)
  {
    kept := "";
    var rest := dacl;
    var c := Scan(rest, next);
    while c.ace != []
      invariant c == next(rest) && (c.ace != [] ==> |c.rest| < |rest|)
      invariant kept + Filtered(rest, goes, next) == Filtered(dacl, goes, next)
      decreases |rest|
    {
      Grouped(kept, c.text, if goes(c.ace) then "" else c.ace, Filtered(c.rest, goes, next));
      kept := kept + c.text;
      if !goes(c.ace) {
        kept := kept + c.ace;
      }
      rest := c.rest;
      c := Scan(rest, next);
    }
    kept := kept + rest;
  }

  lemma Grouped(a: string, b: string, c: string, d: string)
    ensures a + (b + (c + d)) == (a + b + c) + d && a + b + "" == a + b
  {
  }

  // ------------------------------ entries and the text around them ------------------------------

  function Shifted(text: string, c: Cut): Cut {
    Cut(text + c.text, c.ace, c.rest)
  }

  function Put(a: string, b: string): string {
    a + b
  }

  /** What is known of a scanner: it cuts without loss, text without an opening parenthesis does
      not disturb it, and an entry in front is read off. */
  ghost predicate Sound(next: Scanner) {
    && (forall t :: next(t).text + (next(t).ace + next(t).rest) == t)
    && (forall t :: next(t).ace == [] ==> next(t) == Cut(t, "", ""))
    && (forall t :: next(t).ace != [] ==> NoOpen(next(t).text) && IsAce(next(t).ace))
    && (forall text, t {:trigger Put(text, t)} :: NoOpen(text) ==> next(Put(text, t)) == Shifted(text, next(t)))
    && (forall ace, t {:trigger Put(ace, t)} :: IsAce(ace) ==> next(Put(ace, t)) == Cut("", ace, t))
  }

  lemma NextBefore(text: string, t: string)
    requires NoOpen(text)
    ensures Next(text + t) == Shifted(text, Next(t))
  {
    var open := IndexOf(t, '(');
    if open < |t| {
      FirstAt(text + t, '(', |text| + open);
      assert (text + t)[|text| + open..] == t[open..];
      assert (text + t)[..|text| + open] == text + t[..open];
    } else {
      assert '(' !in text + t;
    }
  }

  lemma NextOf(ace: string, t: string)
    requires IsAce(ace)
    ensures Next(ace + t) == Cut("", ace, t)
  {
    FirstAt(ace + t, '(', 0);
    assert (ace + t)[0..] == ace + t;
    FirstAt(ace + t, ')', |ace| - 1);
  }

  lemma NextIsSound()
    ensures Sound(Next)
  {
    forall t
      ensures Next(t).text + (Next(t).ace + Next(t).rest) == t && (Next(t).ace == [] ==> Next(t) == Cut(t, "", ""))
      ensures Next(t).ace != [] ==> NoOpen(Next(t).text) && IsAce(Next(t).ace)
    {
      NextCuts(t);
    }
    forall text, t | NoOpen(text) ensures Next(Put(text, t)) == Shifted(text, Next(t)) {
      NextBefore(text, t);
    }
    forall ace, t | IsAce(ace) ensures Next(Put(ace, t)) == Cut("", ace, t) {
      NextOf(ace, t);
    }
  }

  /** Text without an opening parenthesis does not disturb the entries behind it. */
  lemma TextBefore(text: string, t: string, next: Scanner)
    requires Sound(next) && NoOpen(text)
    ensures Aces(text + t, next) == Aces(t, next) && Between(text + t, next) == text + Between(t, next)
  {
    var c := next(t);
    assert next(Put(text, t)) == Shifted(text, c);
    assert c.text + (c.ace + c.rest) == t;
    TextBeforeCut(text, t, c, next);
  }

  lemma TextBeforeCut(text: string, t: string, c: Cut, next: Scanner)
    requires next(t) == c && next(text + t) == Shifted(text, c)
    requires if c.ace == [] then c.text == t else |c.rest| < |t|
    ensures Aces(text + t, next) == Aces(t, next) && Between(text + t, next) == text + Between(t, next)
  {
    assert (text + c.text) + Between(c.rest, next) == text + (c.text + Between(c.rest, next));
  }

  ghost predicate Clean(t: string, goes: Test, next: Scanner) {
    forall i :: 0 <= i < |Aces(t, next)| ==> !goes(Aces(t, next)[i])
  }

  /** An entry in front is the first entry. */
  lemma AceBefore(ace: string, t: string, goes: Test, next: Scanner)
    requires Sound(next) && IsAce(ace)
    ensures Aces(ace + t, next) == [ace] + Aces(t, next) && Between(ace + t, next) == Between(t, next)
    ensures !goes(ace) && Clean(t, goes, next) ==> Clean(ace + t, goes, next)
    ensures goes(ace) ==> Filtered(ace + t, goes, next) == Filtered(t, goes, next)
  {
    assert next(Put(ace, t)) == Cut("", ace, t);
    assert "" + Between(t, next) == Between(t, next);
    assert "" + ("" + Filtered(t, goes, next)) == Filtered(t, goes, next);
  }

  /** What is left are the other entries, in order, and all the text between. */
  lemma {:induction false} FilteredKeeps(t: string, goes: Test, next: Scanner)
    requires Sound(next)
    ensures Aces(Filtered(t, goes, next), next) == Staying(Aces(t, next), goes)
    ensures Between(Filtered(t, goes, next), next) == Between(t, next)
    decreases |t|
  {
    var c := next(t);
    if c.ace != [] {
      var rest := Filtered(c.rest, goes, next);
      FilteredKeeps(c.rest, goes, next);
      assert Aces(t, next)[1..] == Aces(c.rest, next);
      if goes(c.ace) {
        assert "" + rest == rest;
        TextBefore(c.text, rest, next);
      } else {
        TextBefore(c.text, c.ace + rest, next);
        AceBefore(c.ace, rest, goes, next);
      }
    }
  }

  lemma {:induction false} StayingIsClean(aces: seq<string>, goes: Test)
    ensures forall i :: 0 <= i < |Staying(aces, goes)| ==> !goes(Staying(aces, goes)[i])
  {
    if aces != [] { StayingIsClean(aces[1..], goes); }
  }

  /** Filtering leaves nothing to filter. */
  lemma FilteredIsClean(t: string, goes: Test, next: Scanner)
    requires Sound(next)
    ensures Clean(Filtered(t, goes, next), goes, next)
  {
    FilteredKeeps(t, goes, next);
    StayingIsClean(Aces(t, next), goes);
  }

  lemma CleanRest(t: string, goes: Test, next: Scanner)
    requires Sound(next) && Clean(t, goes, next) && next(t).ace != []
    ensures !goes(next(t).ace) && Clean(next(t).rest, goes, next)
  {
    var aces, rest := Aces(t, next), Aces(next(t).rest, next);
    assert |next(t).rest| < |t|;
    assert aces[0] == next(t).ace;
    assert forall i :: 0 <= i < |rest| ==> rest[i] == aces[i + 1];
  }

  lemma {:induction false} CleanStays(t: string, goes: Test, next: Scanner)
    requires Sound(next) && Clean(t, goes, next)
    ensures Filtered(t, goes, next) == t
    decreases |t|
  {
    var c := next(t);
    if c.ace != [] {
      CleanRest(t, goes, next);
      CleanStays(c.rest, goes, next);
    }
  }

  function FirstOf(t: string, n: nat): string {
    if n <= |t| then t[..n] else t
  }

  /** A scanner that finds no entry in text that is cut off inside the first. */
  ghost predicate NeedsWhole(next: Scanner) {
    forall t, n: nat {:trigger FirstOf(t, n)} ::
      n <= |t| && (next(t).ace != [] ==> n < |next(t).text| + |next(t).ace|) ==> next(FirstOf(t, n)).ace == []
  }

  lemma NextNeedsWhole()
    ensures NeedsWhole(Next)
  {
    forall t, n: nat | n <= |t| && (Next(t).ace != [] ==> n < |Next(t).text| + |Next(t).ace|)
      ensures Next(FirstOf(t, n)).ace == []
    {
      NoNextCutShort(t, n);
    }
  }

  lemma NoNextCutShort(t: string, n: nat)
    requires n <= |t| && (Next(t).ace != [] ==> n < |Next(t).text| + |Next(t).ace|)
    ensures Next(t[..n]).ace == []
  {
    var open := IndexOf(t, '(');
    var tail := t[open..];
    assert open < |t| ==> n <= open + IndexOf(tail, ')');
    IndexCutShort(t, n, '(');
    if open < n {
      IndexCutShort(tail, n - open, ')');
      CutHasNone(t[..n], tail[..n - open], open);
    }
  }

  lemma CutHasNone(s: string, tail: string, open: nat)
    requires open == IndexOf(s, '(') && s[open..] == tail && IndexOf(tail, ')') == |tail|
    ensures Next(s).ace == []
  {
  }

  lemma IndexCutShort(t: string, n: nat, c: char)
    requires n <= |t|
    ensures IndexOf(t[..n], c) == if n <= IndexOf(t, c) then n else IndexOf(t, c)
  {
    if IndexOf(t, c) < n {
      FirstAt(t[..n], c, IndexOf(t, c));
    }
  }

  /** Clean text cut short is clean: a cut entry is not closed, so it is none. */
  lemma {:induction false} CleanCutShort(t: string, n: nat, goes: Test, next: Scanner)
    requires Sound(next) && NeedsWhole(next) && Clean(t, goes, next) && n <= |t|
    ensures Clean(t[..n], goes, next)
    decreases |t|
  {
    var c := next(t);
    var whole := |c.text| + |c.ace|;
    assert c.text + (c.ace + c.rest) == t;
    if c.ace != [] && n >= whole {
      var rest := c.rest[..n - whole];
      CleanRest(t, goes, next);
      CleanCutShort(c.rest, n - whole, goes, next);
      assert t[..n] == c.text + (c.ace + rest);
      TextBefore(c.text, c.ace + rest, next);
      AceBefore(c.ace, rest, goes, next);
    } else {
      assert FirstOf(t, n) == t[..n];
    }
  }

  // ------------------------------ the whole descriptor ------------------------------

  /** A DACL made of another: the new entry first, even ahead of any flags, then the old entries
      that stay, in order, and all the text between. */
  ghost predicate MadeOf(made: string, dacl: string, ace: string, goes: Test, next: Scanner) {
    && ace <= made
    && Aces(made, next) == [ace] + Staying(Aces(dacl, next), goes)
    && Between(made, next) == Between(dacl, next)
  }

  lemma DaclIsExact(dacl: string, ace: string, goes: Test, next: Scanner)
    requires Sound(next) && IsAce(ace)
    ensures MadeOf(ace + Filtered(dacl, goes, next), dacl, ace, goes, next)
  {
    FilteredKeeps(dacl, goes, next);
    AceBefore(ace, Filtered(dacl, goes, next), goes, next);
  }

  lemma RenewalIsExact(p: Descriptor, ace: string, goes: Test)
    requires IsAce(ace)
    ensures var made := ace + Filtered(p.dacl, goes, Next);
            MadeOf(made, p.dacl, ace, goes, Next) && Renewed(p, ace, goes, Next) == p.before + made + p.after
  {
    NextIsSound();
    DaclIsExact(p.dacl, ace, goes, Next);
  }

  /** The rewrite fails exactly when there is no DACL; otherwise it changes nothing before or after
      the DACL and makes the new one of the old. */
  lemma RewriteIsExact(sddl: string, sid: string, ace: string)
    requires IsAce(ace)
    ensures Rewritten(sddl, sid, ace).None? <==> Parsed(Trim(sddl)).None?
    ensures Rewritten(sddl, sid, ace).Some? ==>
      var p := Parsed(Trim(sddl)).value;
      var made := ace + Filtered(p.dacl, Goes(sid), Next);
      MadeOf(made, p.dacl, ace, Goes(sid), Next) && Rewritten(sddl, sid, ace).value == p.before + made + p.after
  {
    var parsed := Parsed(Trim(sddl));
    if parsed.Some? {
      RenewalIsExact(parsed.value, ace, Goes(sid));
    }
  }

  lemma FirstPairAt(s: string, a: char, b: char, i: nat)
    requires i + 1 < |s| && s[i] == a && s[i + 1] == b
    requires forall k :: 0 <= k < i ==> !(s[k] == a && s[k + 1] == b)
    ensures IndexOfPair(s, a, b) == i
  {
    assert IndexOfPair(s, a, b) >= i;
  }

  /** Where `D:` is found does not change with what follows it. */
  lemma PairInFront(s: string, n: nat, more: string)
    requires n + 1 < |s| && IndexOfPair(s, 'D', ':') == n
    ensures IndexOfPair(s[..n + 2] + more, 'D', ':') == n
  {
    FirstPairAt(s[..n + 2] + more, 'D', ':', n);
  }

  /** An entry without a colon in front does not change where `S:` is found behind it. */
  lemma PairBehind(ace: string, t: string)
    requires ':' !in ace && ace != [] && ace[|ace| - 1] == ')'
    ensures IndexOfPair(ace + t, 'S', ':') == |ace| + IndexOfPair(t, 'S', ':')
  {
    var i := IndexOfPair(t, 'S', ':');
    var s := ace + t;
    forall k | 0 <= k < |ace| + i && k + 1 < |s| ensures !(s[k] == 'S' && s[k + 1] == ':') {
      if k + 1 < |ace| { assert s[k + 1] in ace; }
    }
    if i < |t| {
      FirstPairAt(s, 'S', ':', |ace| + i);
    }
  }

  lemma {:induction false} TrimEndIsAPrefix(s: string)
    ensures TrimEnd(s) <= s && (TrimEnd(s) == s || IsSpace(s[|s| - 1]))
    ensures TrimEnd(s) != [] ==> !IsSpace(TrimEnd(s)[|TrimEnd(s)| - 1])
  {
    if s != [] && IsSpace(s[|s| - 1]) { TrimEndIsAPrefix(s[..|s| - 1]); }
  }

  lemma {:induction false} TrimEndBehind(a: string, t: string)
    requires a != [] && !IsSpace(a[|a| - 1])
    ensures TrimEnd(a + t) == a + TrimEnd(t)
  {
    if t != [] && IsSpace(t[|t| - 1]) {
      assert (a + t)[..|a + t| - 1] == a + t[..|t| - 1];
      TrimEndBehind(a, t[..|t| - 1]);
    } else if t == [] {
      assert a + t == a;
    }
  }

  lemma {:induction false} TrimStartLeads(s: string)
    ensures TrimStart(s) != [] ==> !IsSpace(TrimStart(s)[0])
  {
    if s != [] && IsSpace(s[0]) { TrimStartLeads(s[1..]); }
  }

  /** A trimmed text begins and ends with something. */
  lemma TrimmedEnds(s: string)
    requires Trim(s) != []
    ensures !IsSpace(Trim(s)[0]) && !IsSpace(Trim(s)[|Trim(s)| - 1])
  {
    TrimStartLeads(s);
    TrimEndIsAPrefix(TrimStart(s));
  }

  /** The entry the caller builds from a valid SID. */
  predicate SidText(sid: string) {
    forall i :: 0 <= i < |sid| ==> sid[i] == 'S' || sid[i] == '-' || '0' <= sid[i] <= '9'
  }

  lemma AceForIsAce(sid: string)
    requires SidText(sid)
    ensures var ace := AceFor(sid);
            IsAce(ace) && ':' !in ace && ace[|ace| - 1] == ')' && Goes(sid)(ace)
  {
    var ace := AceFor(sid);
    var head := "(A;;RPLC;;;";
    assert forall i :: 0 <= i < |head| ==> head[i] != ')' && head[i] != ':';
    assert forall i :: 0 <= i < |ace| - 1 ==> ace[i] != ')' && ace[i] != ':' by {
      forall i | 0 <= i < |ace| - 1 ensures ace[i] != ')' && ace[i] != ':' {
        assert ace[i] == if i < |head| then head[i] else sid[i - |head|];
      }
    }
    FirstAt(ace, ')', |ace| - 1);
    assert ace[8..] == ";;;" + sid + ")";
  }

  lemma ParsedAgain(s: string, d: nat, ace: string, t: string)
    requires d + 1 < |s| && IndexOfPair(s, 'D', ':') == d && ':' !in ace && ace != [] && ace[|ace| - 1] == ')'
    ensures var e := IndexOfPair(t, 'S', ':');
            Parsed(s[..d + 2] + (ace + t)) == Some(Descriptor(s[..d + 2], ace + t[..e], t[e..]))
  {
    PairInFront(s, d, ace + t);
    Unglued(s[..d + 2], ace + t);
    AroundAgain(s[..d + 2], ace, t);
  }

  lemma Unglued(a: string, b: string)
    ensures (a + b)[..|a|] == a && (a + b)[|a|..] == b
  {
  }

  lemma AroundAgain(before: string, ace: string, t: string)
    requires ':' !in ace && ace != [] && ace[|ace| - 1] == ')'
    ensures var e := IndexOfPair(t, 'S', ':'); Around(before, ace + t) == Descriptor(before, ace + t[..e], t[e..])
  {
    var e := IndexOfPair(t, 'S', ':');
    PairBehind(ace, t);
    CutBehind(ace, t, e);
  }

  lemma CutBehind(a: string, t: string, e: nat)
    requires e <= |t|
    ensures (a + t)[..|a| + e] == a + t[..e] && (a + t)[|a| + e..] == t[e..]
  {
  }

  /** The DACL as it is found again: the clean one, or a piece from its front. */
  lemma FoundAgain(kept: string, after: string)
    requires after == [] || (|after| > 1 && after[0] == 'S' && after[1] == ':' && !IsSpace(after[|after| - 1]))
    ensures var t := TrimEnd(kept + after); t[..IndexOfPair(t, 'S', ':')] <= kept
  {
    var t := kept + after;
    TrimEndIsAPrefix(t);
    if after != [] {
      assert t[|t| - 1] == after[|after| - 1];
      assert t[|kept|] == 'S' && t[|kept| + 1] == ':';
      assert IndexOfPair(t, 'S', ':') <= |kept|;
    } else {
      assert t == kept;
    }
  }

  lemma CleanAgain(dacl: string, r: string, ace: string, goes: Test)
    requires r <= Filtered(dacl, goes, Next) && IsAce(ace) && goes(ace)
    ensures Filtered(ace + r, goes, Next) == r
  {
    NextIsSound();
    var kept := Filtered(dacl, goes, Next);
    FilteredIsClean(dacl, goes, Next);
    NextNeedsWhole();
    CleanCutShort(kept, |r|, goes, Next);
    assert kept[..|r|] == r;
    CleanStays(r, goes, Next);
    AceBefore(ace, r, goes, Next);
  }

  lemma TrimBehind(a: string, t: string)
    requires a != [] && !IsSpace(a[0]) && !IsSpace(a[|a| - 1])
    ensures Trim(a + t) == a + TrimEnd(t)
  {
    TrimEndBehind(a, t);
  }

  /** Where the parts of a descriptor come from. */
  lemma PartsOf(s: string) returns (d: nat)
    requires Parsed(s).Some?
    ensures d + 1 < |s| && IndexOfPair(s, 'D', ':') == d && Parsed(s).value.before == s[..d + 2]
    ensures EndsLike(Parsed(s).value.after, s)
  {
    d := IndexOfPair(s, 'D', ':');
    AroundEnds(s[..d + 2], s[d + 2..]);
    assert s[d + 2..] != [] ==> s[d + 2..][|s| - d - 3] == s[|s| - 1];
  }

  /** What follows a DACL: nothing, or `S:` and on to the end of the text. */
  ghost predicate EndsLike(after: string, s: string) {
    after == [] || (|after| > 1 && after[0] == 'S' && after[1] == ':' && s != [] && after[|after| - 1] == s[|s| - 1])
  }

  lemma AroundEnds(before: string, rest: string)
    ensures EndsLike(Around(before, rest).after, rest)
  {
    var e := IndexOfPair(rest, 'S', ':');
    if e < |rest| {
      assert rest[e..][0] == rest[e] && rest[e..][1] == rest[e + 1];
    }
  }

  lemma TrimmedOutput(before: string, ace: string, kept: string, after: string)
    requires before != [] && !IsSpace(before[0]) && ace != [] && ace[|ace| - 1] == ')'
    ensures Trim(before + (ace + kept) + after) == before + (ace + TrimEnd(kept + after))
  {
    Regrouped(before, ace, kept, after);
    TrimBehind(before + ace, kept + after);
    Regrouped(before, ace, TrimEnd(kept + after), "");
  }

  lemma Regrouped(a: string, b: string, c: string, d: string)
    ensures a + (b + c) + d == (a + b) + (c + d)
    ensures (a + b) + c == a + (b + c)
  {
  }

  lemma RenewedAgain(before: string, ace: string, dacl: string, goes: Test, t: string, e: nat)
    requires e <= |t| && t[..e] <= Filtered(dacl, goes, Next) && IsAce(ace) && goes(ace)
    ensures Renewed(Descriptor(before, ace + t[..e], t[e..]), ace, goes, Next) == before + (ace + t)
  {
    CleanAgain(dacl, t[..e], ace, goes);
    Reglued(before, ace, t, e);
    RenewedFrom(before, ace, t[..e], t[e..], goes, Next);
  }

  lemma Reglued(before: string, ace: string, t: string, e: nat)
    requires e <= |t|
    ensures before + (ace + t[..e]) + t[e..] == before + (ace + t)
  {
  }

  lemma RenewedFrom(before: string, ace: string, r: string, after: string, goes: Test, next: Scanner)
    requires Filtered(ace + r, goes, next) == r
    ensures Renewed(Descriptor(before, ace + r, after), ace, goes, next) == before + (ace + r) + after
  {
  }

  lemma RewrittenAs(out: string, sid: string, ace: string, q: Descriptor, r: string)
    requires Parsed(Trim(out)) == Some(q) && Renewed(q, ace, Goes(sid), Next) == r
    ensures Rewritten(out, sid, ace) == Some(r)
  {
  }

  /** Rewriting what was rewritten changes nothing, but for white space a dropped last entry left
      at the end. The caller strips all white space first, so for it there is none. */
  lemma RewritingSettles(sddl: string, sid: string)
    requires SidText(sid) && Rewritten(sddl, sid, AceFor(sid)).Some?
    ensures var out := Rewritten(sddl, sid, AceFor(sid)).value;
            Rewritten(out, sid, AceFor(sid)) == Some(Trim(out))
  {
    TrimmedEnds(sddl);
    AceForIsAce(sid);
    DescriptorSettles(Trim(sddl), sid, AceFor(sid));
  }

  lemma DescriptorSettles(s: string, sid: string, ace: string)
    requires Parsed(s).Some? && s != [] && !IsSpace(s[0]) && !IsSpace(s[|s| - 1])
    requires IsAce(ace) && ':' !in ace && ace[|ace| - 1] == ')' && Goes(sid)(ace)
    ensures var out := Renewed(Parsed(s).value, ace, Goes(sid), Next); Rewritten(out, sid, ace) == Some(Trim(out))
  {
    var p, goes := Parsed(s).value, Goes(sid);
    var d := PartsOf(s);
    var kept := Filtered(p.dacl, goes, Next);
    var t := TrimEnd(kept + p.after);
    var e := IndexOfPair(t, 'S', ':');
    TrimmedOutput(p.before, ace, kept, p.after);
    ParsedAgain(s, d, ace, t);
    FoundAgain(kept, p.after);
    RenewedAgain(p.before, ace, p.dacl, goes, t, e);
    RewrittenAs(Renewed(p, ace, goes, Next), sid, ace,
                Descriptor(p.before, ace + t[..e], t[e..]), p.before + (ace + t));
  }

  ghost predicate Solid(s: string) {
    forall i :: 0 <= i < |s| ==> !IsSpace(s[i])
  }

  lemma {:induction false} FilteredIsSolid(t: string, goes: Test, next: Scanner)
    requires Sound(next) && Solid(t)
    ensures Solid(Filtered(t, goes, next))
    decreases |t|
  {
    var c := next(t);
    assert c.text + (c.ace + c.rest) == t;
    if c.ace != [] {
      SolidParts(c.text, c.ace, c.rest);
      FilteredIsSolid(c.rest, goes, next);
    }
  }

  lemma SolidParts(a: string, b: string, c: string)
    requires Solid(a + (b + c))
    ensures Solid(a) && Solid(b) && Solid(c)
  {
    var s := a + (b + c);
    assert forall i :: 0 <= i < |a| ==> a[i] == s[i];
    assert forall i :: 0 <= i < |b| ==> b[i] == s[|a| + i];
    assert forall i :: 0 <= i < |c| ==> c[i] == s[|a| + |b| + i];
  }

  lemma SolidIsTrimmed(s: string)
    requires Solid(s)
    ensures Trim(s) == s
  {
  }

  /** The entries that stay of a descriptor's DACL, with the text between. */
  function KeptOf(sddl: string, sid: string): string
    requires Parsed(Trim(sddl)).Some?
  {
    Filtered(Parsed(Trim(sddl)).value.dacl, Goes(sid), Next)
  }

  lemma TrimEndIff(s: string)
    ensures TrimEnd(s) == s <==> s == "" || !IsSpace(s[|s| - 1])
  {
    TrimEndIsAPrefix(s);
  }

  lemma Joined(a: string, b: string, c: string, d: string)
    ensures a + (b + c) == a + (b + d) <==> c == d
  {
    if a + (b + c) == a + (b + d) {
      assert (a + (b + c))[|a| + |b|..] == c && (a + (b + d))[|a| + |b|..] == d;
    }
  }

  /** The output is its own trimmed self exactly when something follows the DACL, or nothing is left
      of the old one, or what is left does not end in white space. */
  lemma OutputIsTrimmedIff(sddl: string, sid: string)
    requires SidText(sid) && Parsed(Trim(sddl)).Some?
    ensures var p, kept := Parsed(Trim(sddl)).value, KeptOf(sddl, sid);
            var out := Renewed(p, AceFor(sid), Goes(sid), Next);
            Trim(out) == out <==> p.after != "" || kept == "" || !IsSpace(kept[|kept| - 1])
  {
    TrimmedEnds(sddl);
    AceForIsAce(sid);
    DescriptorTrimmedIff(Trim(sddl), AceFor(sid), KeptOf(sddl, sid));
  }

  /** So that is exactly when rewriting the output gives the output again. */
  lemma RewritingSettlesIff(sddl: string, sid: string)
    requires SidText(sid) && Rewritten(sddl, sid, AceFor(sid)).Some?
    ensures var p, kept := Parsed(Trim(sddl)).value, KeptOf(sddl, sid);
            var out := Rewritten(sddl, sid, AceFor(sid));
            Rewritten(out.value, sid, AceFor(sid)) == out <==>
              p.after != "" || kept == "" || !IsSpace(kept[|kept| - 1])
  {
    RewritingSettles(sddl, sid);
    OutputIsTrimmedIff(sddl, sid);
  }

  lemma DescriptorTrimmedIff(s: string, ace: string, kept: string)
    requires Parsed(s).Some? && s != [] && !IsSpace(s[0]) && !IsSpace(s[|s| - 1]) && ace != [] && ace[|ace| - 1] == ')'
    ensures var p := Parsed(s).value;
            var out := p.before + (ace + kept) + p.after;
            Trim(out) == out <==> p.after != "" || kept == "" || !IsSpace(kept[|kept| - 1])
  {
    var d := PartsOf(s);
    TrimmedIff(Parsed(s).value, ace, kept);
  }

  lemma TrimmedIff(p: Descriptor, ace: string, kept: string)
    requires p.before != [] && !IsSpace(p.before[0]) && ace != [] && ace[|ace| - 1] == ')'
    requires p.after == [] || !IsSpace(p.after[|p.after| - 1])
    ensures var out := p.before + (ace + kept) + p.after;
            Trim(out) == out <==> p.after != "" || kept == "" || !IsSpace(kept[|kept| - 1])
  {
    var t := kept + p.after;
    TrimmedOutput(p.before, ace, kept, p.after);
    assert p.before + (ace + kept) + p.after == p.before + (ace + t);
    Joined(p.before, ace, t, TrimEnd(t));
    TrimEndIff(t);
    assert p.after != "" ==> t[|t| - 1] == p.after[|p.after| - 1];
    assert p.after == "" ==> t == kept;
  }

  lemma OnlyEntryGoes(text: string, entry: string, goes: Test, next: Scanner)
    requires Sound(next) && NoOpen(text) && IsAce(entry) && goes(entry)
    ensures Filtered(text + entry, goes, next) == text
  {
    assert next(Put(entry, "")) == Cut("", entry, "") && entry + "" == entry;
    assert next(Put(text, entry)) == Shifted(text, next(entry));
    assert next("").text + (next("").ace + next("").rest) == "";
    assert text + "" == text;
  }

  lemma BareParses(dacl: string)
    requires dacl != "" && ':' !in dacl && !IsSpace(dacl[|dacl| - 1])
    ensures Parsed(Trim("D:" + dacl)) == Some(Descriptor("D:", dacl, ""))
  {
    TrimBehind("D:", dacl);
    TrimEndIff(dacl);
    FirstPairAt("D:" + dacl, 'D', ':', 0);
    Unglued("D:", dacl);
    assert dacl[|dacl|..] == "" && dacl[..|dacl|] == dacl;
  }

  /** Descriptors whose rewriting does not settle: a space in front of an only entry that goes, as in
      `D: (A;;;;;IU)`, is left behind the first time and dropped the second. */
  lemma SpaceIsLeftBehind(entry: string, sid: string)
    requires SidText(sid) && IsAce(entry) && ':' !in entry && Goes(sid)(entry)
    ensures var out := "D:" + (AceFor(sid) + " ");
            && Rewritten("D:" + (" " + entry), sid, AceFor(sid)) == Some(out)
            && Rewritten(out, sid, AceFor(sid)) == Some("D:" + AceFor(sid)) && out != "D:" + AceFor(sid)
  {
    BareParses(" " + entry);
    NextIsSound();
    OnlyEntryGoes(" ", entry, Goes(sid), Next);
    RewritingSettles("D:" + (" " + entry), sid);
    AceForIsAce(sid);
    Bare(AceFor(sid));
  }

  lemma Bare(ace: string)
    requires ace != [] && ace[|ace| - 1] == ')'
    ensures "D:" + (ace + " ") + "" == "D:" + (ace + " ") != "D:" + ace
    ensures Trim("D:" + (ace + " ")) == "D:" + ace
  {
    TrimmedOutput("D:", ace, " ", "");
    assert "D:" + (ace + " ") + "" == "D:" + (ace + " ");
    assert |"D:" + (ace + " ")| == |ace| + 3;
    assert TrimEnd(" ") == "" && " " + "" == " ";
    assert ace + "" == ace;
  }

  lemma PartsAreSolid(s: string, d: nat)
    requires Solid(s) && d + 1 < |s|
    ensures var p := Around(s[..d + 2], s[d + 2..]); Solid(p.before) && Solid(p.dacl) && Solid(p.after)
  {
  }

  /** For a descriptor without white space, as the caller passes it: twice is once. */
  lemma TwiceIsOnce(sddl: string, sid: string)
    requires SidText(sid) && Solid(sddl) && Rewritten(sddl, sid, AceFor(sid)).Some?
    ensures var out := Rewritten(sddl, sid, AceFor(sid)).value; Rewritten(out, sid, AceFor(sid)) == Some(out)
  {
    SolidIsTrimmed(sddl);
    NextIsSound();
    var d := PartsOf(sddl);
    PartsAreSolid(sddl, d);
    FilteredIsSolid(Parsed(sddl).value.dacl, Goes(sid), Next);
    RewritingSettlesIff(sddl, sid);
  }

  // ------------------------------ in the descriptor's own terms ------------------------------

  lemma GoesIff(ace: string, sid: string)
    ensures Goes(sid)(ace) <==> exists head :: ace == head + ";;;IU)" || ace == head + ";;;S-1-5-4)"
                                               || ace == head + ";;;" + sid + ")"
  {
    SuffixIs(ace, ";;;IU)");
    SuffixIs(ace, ";;;S-1-5-4)");
    SuffixIs(ace, ";;;" + sid + ")");
    forall head ensures head + (";;;" + sid + ")") == head + ";;;" + sid + ")" {
    }
  }

  lemma SuffixIs(s: string, suffix: string)
    ensures EndsWith(s, suffix) <==> exists head :: s == head + suffix
  {
    if EndsWith(s, suffix) {
      assert s == s[..|s| - |suffix|] + suffix;
    }
    if head :| s == head + suffix {
      assert s[|head|..] == suffix;
    }
  }

  lemma {:induction false} StayingAre(aces: seq<string>, goes: Test)
    ensures forall a :: a in Staying(aces, goes) <==> a in aces && !goes(a)
  {
    if aces != [] {
      StayingAre(aces[1..], goes);
      assert aces == [aces[0]] + aces[1..];
    }
  }

  /** After the rewrite the coordinator's entry is the start and query grant alone: no other entry of the DACL
      is for it or for interactive users, and all that are for anyone else are still there. */
  lemma OnlyTheGrantIsLeft(sddl: string, sid: string, a: string)
    requires SidText(sid) && Rewritten(sddl, sid, AceFor(sid)).Some?
    ensures var p := Parsed(Trim(sddl)).value;
            var made := AceFor(sid) + Filtered(p.dacl, Goes(sid), Next);
            && Rewritten(sddl, sid, AceFor(sid)).value == p.before + made + p.after
            && Aces(made, Next) != [] && Aces(made, Next)[0] == "(A;;RPLC;;;" + sid + ")"
            && (a in Aces(made, Next)[1..] <==>
                  && a in Aces(p.dacl, Next)
                  && forall head :: a != head + ";;;IU)" && a != head + ";;;S-1-5-4)" && a != head + ";;;" + sid + ")")
  {
    AceForIsAce(sid);
    RewriteIsExact(sddl, sid, AceFor(sid));
    var aces := Aces(Parsed(Trim(sddl)).value.dacl, Next);
    StayingAre(aces, Goes(sid));
    GoesIff(a, sid);
    assert ([AceFor(sid)] + Staying(aces, Goes(sid)))[1..] == Staying(aces, Goes(sid));
  }

  ghost predicate HasPair(s: string, a: char, b: char) {
    exists k :: 0 <= k < |s| - 1 && s[k] == a && s[k + 1] == b
  }

  /** The DACL lies between the first `D:` of the text and the next `S:`, or the end. */
  lemma DaclIsBetween(s: string)
    ensures Parsed(s).None? <==> !HasPair(s, 'D', ':')
    ensures Parsed(s).Some? ==>
              var p := Parsed(s).value;
              && s == p.before + p.dacl + p.after
              && |p.before| >= 2 && p.before[|p.before| - 2] == 'D' && p.before[|p.before| - 1] == ':'
              && !HasPair(p.before[..|p.before| - 1], 'D', ':')
              && !HasPair(p.dacl, 'S', ':')
              && (p.after == "" || (|p.after| > 1 && p.after[0] == 'S' && p.after[1] == ':'))
  {
    var d := IndexOfPair(s, 'D', ':');
    PairIsFirst(s, 'D', ':');
    if d < |s| {
      AroundIsBetween(s[..d + 2], s[d + 2..]);
      Glued(s, d + 2);
    }
  }

  lemma PairIsFirst(s: string, a: char, b: char)
    ensures var i := IndexOfPair(s, a, b);
            if i < |s| then i + 1 < |s| && HasPair(s, a, b) && !HasPair(s[..i + 2][..i + 1], a, b)
            else !HasPair(s, a, b)
  {
    var i := IndexOfPair(s, a, b);
    if i < |s| {
      assert s[i] == a && s[i + 1] == b;
      assert s[..i + 2][..i + 1] == s[..i + 1];
    }
  }

  lemma AroundIsBetween(before: string, rest: string)
    ensures var p := Around(before, rest);
            && p.before == before && rest == p.dacl + p.after && !HasPair(p.dacl, 'S', ':')
            && (p.after == "" || (|p.after| > 1 && p.after[0] == 'S' && p.after[1] == ':'))
            && before + rest == p.before + p.dacl + p.after
  {
    var e := IndexOfPair(rest, 'S', ':');
    Glued(rest, e);
    assert before + (rest[..e] + rest[e..]) == before + rest[..e] + rest[e..];
  }

  /** The characters Unicode counts as white space, one by one. */
  lemma SpacesAre(c: char)
    ensures IsSpace(c) <==> c as int in {
              9, 10, 11, 12, 13, 32, 133, 160, 5760, 8192, 8193, 8194, 8195, 8196, 8197, 8198, 8199, 8200, 8201, 8202,
              8232, 8233, 8239, 8287, 12288}
  {
  }

  ghost predicate Blank(s: string) {
    forall i :: 0 <= i < |s| ==> IsSpace(s[i])
  }

  lemma {:induction false} TrimStartCuts(s: string) returns (a: string)
    ensures Blank(a) && s == a + TrimStart(s)
  {
    if s != [] && IsSpace(s[0]) {
      var b := TrimStartCuts(s[1..]);
      a := [s[0]] + b;
    } else {
      a := "";
    }
  }

  lemma {:induction false} TrimEndCuts(s: string) returns (b: string)
    ensures Blank(b) && s == TrimEnd(s) + b
  {
    if s != [] && IsSpace(s[|s| - 1]) {
      var c := TrimEndCuts(s[..|s| - 1]);
      b := c + [s[|s| - 1]];
    } else {
      b := "";
    }
  }

  /** Trimming takes white space off both ends, and all of it. */
  lemma TrimCutsBlanks(s: string) returns (a: string, b: string)
    ensures Blank(a) && Blank(b) && s == a + Trim(s) + b
    ensures Trim(s) != [] ==> !IsSpace(Trim(s)[0]) && !IsSpace(Trim(s)[|Trim(s)| - 1])
  {
    a := TrimStartCuts(s);
    b := TrimEndCuts(TrimStart(s));
    assert a + (Trim(s) + b) == a + Trim(s) + b;
    if Trim(s) != [] { TrimmedEnds(s); }
  }
}
