/** Linking a bot to an account by a one-shot code: its spelling, and the store it is parked in. */
module BotLinks {
  import opened Basics

  // ----- how a code is written down and read back -----

  const CODE_ALPHABET := "ABCDEFGHJKMNPQRSTVWXYZ2345679"
  const CODE_LENGTH := 8

  function Upper(c: char): char {
    if 'a' <= c <= 'z' then c - 'a' + 'A' else c
  }

  predicate IsAlnum(c: char) {
    'a' <= c <= 'z' || 'A' <= c <= 'Z' || '0' <= c <= '9'
  }

  /** The character tables behind `str.upper` and `str.isalnum`. Outside ASCII they are left open:
      upper-casing may change a character, or its number. */
  datatype Unicode = Unicode(upper: char -> string, isAlnum: char -> bool)

  ghost predicate Conforms(u: Unicode) {
    forall c :: IsAscii(c) ==> u.upper(c) == [Upper(c)] && u.isAlnum(c) == IsAlnum(c)
  }

  predicate IsAscii(c: char) {
    c < 128 as char
  }

  function Alnums(u: Unicode, s: string): string {
    if s == "" then "" else (if u.isAlnum(s[0]) then [s[0]] else "") + Alnums(u, s[1..])
  }

  function NormalizeCode(u: Unicode, raw: string): string {
    if raw == "" then "" else Alnums(u, u.upper(raw[0])) + NormalizeCode(u, raw[1..])
  }

  function FormatCode(code: string): string {
    var half := |code| / 2;
    code[..half] + "-" + code[half..]
  }

  /** The letters but I, L, O and U, and the digits but 0, 1 and 8. */
  predicate InAlphabet(c: char) {
    ('A' <= c <= 'Z' && c != 'I' && c != 'L' && c != 'O' && c != 'U') || '2' <= c <= '7' || c == '9'
  }

  lemma AlphabetSpelledOut(c: char)
    ensures InAlphabet(c) <==> c in CODE_ALPHABET
  {
  }

  predicate OverAlphabet(code: string) {
    forall i :: 0 <= i < |code| ==> InAlphabet(code[i])
  }

  lemma Regroup(a: string, b: string, c: string)
    ensures a + (b + c) == (a + b) + c
  {
  }

  lemma {:induction false} NormalizeConcat(u: Unicode, s: string, t: string)
    ensures NormalizeCode(u, s + t) == NormalizeCode(u, s) + NormalizeCode(u, t)
  {
    if s == "" {
      assert s + t == t;
    } else {
      NormalizeConcat(u, s[1..], t);
      assert (s + t)[1..] == s[1..] + t;
      Regroup(Alnums(u, u.upper(s[0])), NormalizeCode(u, s[1..]), NormalizeCode(u, t));
    }
  }

  lemma AlnumsOfOne(u: Unicode, c: char)
    ensures Alnums(u, [c]) == if u.isAlnum(c) then [c] else ""
  {
    assert [c][1..] == "";
  }

  lemma {:induction false} NormalizeKeepsCodes(u: Unicode, code: string)
    requires Conforms(u) && OverAlphabet(code)
    ensures NormalizeCode(u, code) == code
  {
    if code != "" {
      assert InAlphabet(code[0]);
      AlnumsOfOne(u, code[0]);
      NormalizeKeepsCodes(u, code[1..]);
    }
  }

  /** Whatever a code's length, reading back what is displayed gives the code. */
  lemma FormatRoundTrip(u: Unicode, code: string)
    requires Conforms(u) && OverAlphabet(code)
    ensures NormalizeCode(u, FormatCode(code)) == code
  {
    var front, back := code[..|code| / 2], code[|code| / 2..];
    NormalizeConcat(u, front + "-", back);
    NormalizeConcat(u, front, "-");
    DashVanishes(u);
    HalvesSurvive(u, code, front, back);
  }

  lemma HalvesSurvive(u: Unicode, code: string, front: string, back: string)
    requires Conforms(u) && OverAlphabet(code) && code == front + back
    ensures NormalizeCode(u, front) + "" + NormalizeCode(u, back) == code
  {
    assert forall i :: 0 <= i < |front| ==> front[i] == code[i];
    assert forall i :: 0 <= i < |back| ==> back[i] == code[|front| + i];
    NormalizeKeepsCodes(u, front);
    NormalizeKeepsCodes(u, back);
  }

  lemma DashVanishes(u: Unicode)
    requires Conforms(u)
    ensures NormalizeCode(u, "-") == ""
  {
    AlnumsOfOne(u, '-');
    assert "-"[1..] == "" && u.upper('-') == "-";
  }

  /** A code is displayed with a dash after its first four characters. */
  lemma CodeAsShown(code: string)
    requires |code| == 8
    ensures FormatCode(code)
         == [code[0], code[1], code[2], code[3], '-', code[4], code[5], code[6], code[7]]
    ensures FormatCode("K4F29QTX") == "K4F2-9QTX"
  {
    assert code[..4] == [code[0], code[1], code[2], code[3]];
    assert code[4..] == [code[4], code[5], code[6], code[7]];
  }

  method ShowCode(ghost u: Unicode, code: string) returns (shown: string)
    requires Conforms(u) && OverAlphabet(code)
    ensures NormalizeCode(u, shown) == code && shown == FormatCode(code)
  {
    FormatRoundTrip(u, code);
    shown := FormatCode(code);
  }

  /** `raw` is `code` as a person may type it: in either case, with other characters strewn in. */
  predicate TypedAs(raw: string, code: string) {
    if raw == "" then code == ""
    else if IsAlnum(raw[0]) then code != "" && Upper(raw[0]) == code[0] && TypedAs(raw[1..], code[1..])
    else TypedAs(raw[1..], code)
  }

  /** Reading ASCII text is exactly undoing such typing. */
  lemma {:induction false} NormalizeReadsTyping(u: Unicode, raw: string, code: string)
    requires Conforms(u) && forall i :: 0 <= i < |raw| ==> IsAscii(raw[i])
    ensures TypedAs(raw, code) <==> NormalizeCode(u, raw) == code
  {
    if raw != "" {
      AlnumsOfOne(u, Upper(raw[0]));
      assert u.upper(raw[0]) == [Upper(raw[0])] && IsAscii(Upper(raw[0]));
      NormalizeReadsTyping(u, raw[1..], code);
      if code != "" {
        NormalizeReadsTyping(u, raw[1..], code[1..]);
        assert code == [code[0]] + code[1..];
      }
    }
  }

  // ----- the bots -----

  datatype Bot = Bot(name: string, secret: string)

  /** The bot a secret belongs to; every secret is compared, and the last match wins. */
  method BotForSecret(bots: seq<Bot>, secret: string) returns (found: Option<string>)
    ensures found == OwnerOf(bots, secret)
  {
    found := None;
    for i := 0 to |bots|
      invariant found == OwnerOf(bots[..i], secret)
    {
      assert bots[..i + 1][..i] == bots[..i];
      if bots[i].secret == secret {
        found := Some(bots[i].name);
      }
    }
    assert bots[..|bots|] == bots;
  }

  function OwnerOf(bots: seq<Bot>, secret: string): (owner: Option<string>)
    ensures owner.Some? <==> exists i :: 0 <= i < |bots| && bots[i].secret == secret
    ensures owner.Some? ==> exists i :: 0 <= i < |bots| && bots[i] == Bot(owner.value, secret)
  {
    if bots == [] then None
    else
      var n := |bots| - 1;
      if bots[n].secret == secret then Some(bots[n].name) else OwnerOf(bots[..n], secret)
  }

  /** The owner named is that of the last matching secret. */
  lemma {:induction false} LastMatchWins(bots: seq<Bot>, secret: string, i: nat)
    requires i < |bots| && bots[i].secret == secret
    requires forall j :: i < j < |bots| ==> bots[j].secret != secret
    ensures OwnerOf(bots, secret) == Some(bots[i].name)
  {
    if i < |bots| - 1 {
      LastMatchWins(bots[..|bots| - 1], secret, i);
    }
  }

  // ----- issuing and redeeming -----

  /** `active` says whose accounts exist and are active when the claim arrives. */
  datatype Event =
    | Issue(user: nat, code: string, now: int)
    | Claim(secret: string, raw: string, active: set<nat>, now: int)

  datatype Parked = Parked(user: nat, expires: int)

  datatype Token = Token(user: nat, bot: string)

  datatype Config = Config(bots: seq<Bot>, ttl: int, unicode: Unicode)

  /** A claim gets to the store only with a bot's secret and something that could be a code. */
  predicate Asks(cfg: Config, e: Event, code: string) {
    e.Claim? && OwnerOf(cfg.bots, e.secret).Some? && NormalizeCode(cfg.unicode, e.raw) == code && code != ""
  }

  function ParkedAfter(cfg: Config, log: seq<Event>): map<string, Parked> {
    if log == [] then map[]
    else
      var e, before := log[|log| - 1], ParkedAfter(cfg, log[..|log| - 1]);
      match e
      case Issue(user, code, now) => before[code := Parked(user, now + cfg.ttl)]
      case Claim(_, raw, _, _) =>
        if Asks(cfg, e, NormalizeCode(cfg.unicode, raw)) then before - {NormalizeCode(cfg.unicode, raw)} else before
  }

  class CodeStore {
    const cfg: Config
    var parked: map<string, Parked>
    ghost var log: seq<Event>

    ghost predicate Valid()
      reads this
    {
      Conforms(cfg.unicode) && parked == ParkedAfter(cfg, log)
    }

    constructor (cfg: Config)
      requires Conforms(cfg.unicode)
      ensures Valid() && log == [] && this.cfg == cfg
    {
      this.cfg := cfg;
      parked, log := map[], [];
    }

    /** Park the user's id under the code just drawn, replacing whatever was parked there. */
    method GenerateLinkCode(user: nat, code: string, now: int) returns (shown: string)
      requires Valid() && |code| == CODE_LENGTH && OverAlphabet(code)
      modifies this
      ensures Valid() && log == old(log) + [Issue(user, code, now)]
      ensures NormalizeCode(cfg.unicode, shown) == code && shown == FormatCode(code)
    {
      shown := ShowCode(cfg.unicode, code);
      parked := parked[code := Parked(user, now + cfg.ttl)];
      log := log + [Issue(user, code, now)];
      assert log[..|log| - 1] == old(log);
    }

    /** A token, or nothing. An entry that is found is spent, even when nothing comes of it. */
    method ClaimLink(secret: string, raw: string, active: set<nat>, now: int) returns (token: Option<Token>)
      requires Valid()
      modifies this
      ensures Valid() && log == old(log) + [Claim(secret, raw, active, now)]
      ensures forall t :: token == Some(t) <==> Earns(cfg, log, |log| - 1, t)
    {
      ghost var before := log;
      log := log + [Claim(secret, raw, active, now)];
      assert log[..|log| - 1] == before;
      var owner := BotForSecret(cfg.bots, secret);
      var code := NormalizeCode(cfg.unicode, raw);
      token := None;
      if owner.Some? && code != "" && code in parked {
        var p := parked[code];
        if now < p.expires && p.user in active {
          token := Some(Token(p.user, owner.value));
        }
      }
      EarnsFromStore(cfg, before, Claim(secret, raw, active, now));
      if owner.Some? && code != "" {
        parked := parked - {code};
      }
    }
  }

  /** `log[g]` issued `code`, leaving `p`, and nothing has touched the code since. */
  ghost predicate LastIssue(cfg: Config, log: seq<Event>, g: nat, code: string, p: Parked) {
    && g < |log| && log[g].Issue? && log[g].code == code
    && p == Parked(log[g].user, log[g].now + cfg.ttl)
    && (forall k :: g < k < |log| ==> !Touches(cfg, log[k], code))
  }

  predicate Touches(cfg: Config, e: Event, code: string) {
    (e.Issue? && e.code == code) || Asks(cfg, e, code)
  }

  /** The claim at `c` redeems the code issued at `g`: it comes from a known bot, in time, while the
      user is active, and nothing touched the code in between. `t` is the token due. */
  ghost predicate Redeems(cfg: Config, log: seq<Event>, g: nat, c: nat, t: Token) {
    && g < c < |log| && log[g].Issue? && Asks(cfg, log[c], log[g].code)
    && log[c].now < log[g].now + cfg.ttl
    && log[g].user in log[c].active
    && (forall k :: g < k < c ==> !Touches(cfg, log[k], log[g].code))
    && t == Token(log[g].user, OwnerOf(cfg.bots, log[c].secret).value)
  }

  /** The claim at `c` is due the token `t`. */
  ghost predicate Earns(cfg: Config, log: seq<Event>, c: nat, t: Token) {
    exists g :: Redeems(cfg, log, g, c, t)
  }

  ghost predicate Standing(cfg: Config, log: seq<Event>, code: string, p: Parked) {
    exists g :: LastIssue(cfg, log, g, code, p)
  }

  lemma StandingGrows(cfg: Config, log: seq<Event>, e: Event, code: string, p: Parked)
    ensures Standing(cfg, log + [e], code, p)
       <==> if e.Issue? && e.code == code then p == Parked(e.user, e.now + cfg.ttl)
            else !Touches(cfg, e, code) && Standing(cfg, log, code, p)
  {
    var longer := log + [e];
    if g: nat :| LastIssue(cfg, longer, g, code, p) {
      if g < |log| {
        assert longer[|log|] == e;
        assert forall k :: g < k < |log| ==> log[k] == longer[k];
        assert LastIssue(cfg, log, g, code, p);
      }
    }
    if e.Issue? && e.code == code && p == Parked(e.user, e.now + cfg.ttl) {
      assert LastIssue(cfg, longer, |log|, code, p);
    } else if !Touches(cfg, e, code) {
      if g: nat :| LastIssue(cfg, log, g, code, p) {
        assert LastIssue(cfg, longer, g, code, p);
      }
    }
  }

  /** What is parked under a code is exactly what its latest issuance left, unless spent since. */
  lemma {:induction false} ParkedIsStanding(cfg: Config, log: seq<Event>, code: string, p: Parked)
    ensures (code in ParkedAfter(cfg, log) && ParkedAfter(cfg, log)[code] == p) <==> Standing(cfg, log, code, p)
  {
    if log != [] {
      var before, e := log[..|log| - 1], log[|log| - 1];
      ParkedIsStanding(cfg, before, code, p);
      StandingGrows(cfg, before, e, code, p);
      assert log == before + [e];
    }
  }

  lemma EarnsFromStanding(cfg: Config, log: seq<Event>, e: Event, t: Token)
    requires e.Claim?
    ensures Earns(cfg, log + [e], |log|, t)
       <==> var code := NormalizeCode(cfg.unicode, e.raw);
            Asks(cfg, e, code) && t.user in e.active && t.bot == OwnerOf(cfg.bots, e.secret).value
            && exists p :: Standing(cfg, log, code, p) && p.user == t.user && e.now < p.expires
  {
    var longer, code := log + [e], NormalizeCode(cfg.unicode, e.raw);
    if g: nat :| Redeems(cfg, longer, g, |log|, t) {
      assert forall k :: g < k < |log| ==> log[k] == longer[k];
      assert LastIssue(cfg, log, g, code, Parked(log[g].user, log[g].now + cfg.ttl));
      assert Standing(cfg, log, code, Parked(log[g].user, log[g].now + cfg.ttl));
    }
    if Asks(cfg, e, code) && t.user in e.active && t.bot == OwnerOf(cfg.bots, e.secret).value {
      if p :| Standing(cfg, log, code, p) && p.user == t.user && e.now < p.expires {
        var g :| LastIssue(cfg, log, g, code, p);
        assert Redeems(cfg, longer, g, |log|, t);
      }
    }
  }

  lemma EarnsFromStore(cfg: Config, log: seq<Event>, e: Event)
    requires e.Claim?
    ensures var parked, code := ParkedAfter(cfg, log), NormalizeCode(cfg.unicode, e.raw);
      forall t :: (
        Earns(cfg, log + [e], |log|, t)
        <==> Asks(cfg, e, code) && code in parked && e.now < parked[code].expires && parked[code].user in e.active
             && t == Token(parked[code].user, OwnerOf(cfg.bots, e.secret).value))
  {
    var parked, code := ParkedAfter(cfg, log), NormalizeCode(cfg.unicode, e.raw);
    forall t
      ensures Earns(cfg, log + [e], |log|, t)
        <==> Asks(cfg, e, code) && code in parked && e.now < parked[code].expires && parked[code].user in e.active
             && t == Token(parked[code].user, OwnerOf(cfg.bots, e.secret).value)
    {
      EarnsFromStanding(cfg, log, e, t);
      if code in parked {
        ParkedIsStanding(cfg, log, code, parked[code]);
      }
      if p :| Standing(cfg, log, code, p) && p.user == t.user && e.now < p.expires {
        ParkedIsStanding(cfg, log, code, p);
      }
    }
  }

  /** One issuance never yields two tokens: not to two claims, nor to two users or bots. */
  lemma OneTokenPerIssue(cfg: Config, log: seq<Event>, g: nat, c: nat, d: nat, t: Token, u: Token)
    requires Redeems(cfg, log, g, c, t) && Redeems(cfg, log, g, d, u)
    ensures c == d && t == u
  {
    if c < d {
      assert Touches(cfg, log[c], log[g].code);
    } else if d < c {
      assert Touches(cfg, log[d], log[g].code);
    }
  }

  /** A claim redeems at most one issuance: the latest of its code. */
  lemma OnlyLatestIssue(cfg: Config, log: seq<Event>, g: nat, h: nat, c: nat, t: Token)
    requires Redeems(cfg, log, g, c, t) && h < c && log[h].Issue?
    requires log[h].code == NormalizeCode(cfg.unicode, log[c].raw)
    ensures h <= g
  {
    if g < h {
      assert Touches(cfg, log[h], log[g].code);
    }
  }
}
