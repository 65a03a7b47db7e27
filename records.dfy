/** The decoded Swiss-Chess records the converter consumes, and the small JavaScript
    primitives it applies to their fields: property access, `String.prototype.trim`,
    `parseInt(_, 10)` and `new Map(entries)`. */
module Records {
  import opened Wrappers

  /** A player or general-info record: field code to field text. */
  type RawRecord = map<string, string>

  /** One pairing record: one player's view of one game of one round. */
  datatype PairingRecord = PairingRecord(
    player: string,    // owning player's start key
    round: int,        // round number
    color: string,     // colour code, field '4000'
    opponent: string,  // opponent's start key, field '4001'
    result: string)    // result code from the owner's side, field '4002'

  /** Field code of a player's start key. */
  const KeyCode: string := "2020"

  /** `record[code]`: the field, or `None` where JavaScript gives `undefined`. */
  function Field(rec: RawRecord, code: string): (f: Option<string>)
    ensures f.Some? <==> code in rec
    ensures f.Some? ==> f.value == rec[code]
  {
    if code in rec then Some(rec[code]) else None
  }

  /** JavaScript's white space and line terminators, which `trim` and `parseInt` skip. */
  predicate IsJsWhitespace(c: char) {
    var n := c as int;
    n == 0x09 || n == 0x0A || n == 0x0B || n == 0x0C || n == 0x0D || n == 0x20
    || n == 0xA0 || n == 0x1680 || (0x2000 <= n <= 0x200A) || n == 0x2028
    || n == 0x2029 || n == 0x202F || n == 0x205F || n == 0x3000 || n == 0xFEFF
  }

  /** `s.trim() === ''` */
  predicate IsBlank(s: string) {
    forall i :: 0 <= i < |s| ==> IsJsWhitespace(s[i])
  }

  /** `s` with its leading white space removed. */
  function TrimStart(s: string): (t: string)
    ensures |t| <= |s| && t == s[|s| - |t|..]
    ensures IsBlank(s[..|s| - |t|])
    ensures t == [] || !IsJsWhitespace(t[0])
  {
    if s != [] && IsJsWhitespace(s[0]) then
      var t := TrimStart(s[1..]);
      assert s[..|s| - |t|] == [s[0]] + s[1..][..|s| - 1 - |t|];
      t
    else s
  }

  predicate IsDigit(c: char) {
    '0' <= c <= '9'
  }

  predicate AllDigits(s: string) {
    forall i :: 0 <= i < |s| ==> IsDigit(s[i])
  }

  /** Length of the longest prefix of `s` made of decimal digits. */
  function DigitRun(s: string): (n: nat)
    ensures n <= |s| && AllDigits(s[..n])
    ensures n < |s| ==> !IsDigit(s[n])
  {
    if s != [] && IsDigit(s[0]) then
      var n := 1 + DigitRun(s[1..]);
      assert s[..n] == [s[0]] + s[1..][..n - 1];
      n
    else 0
  }

  /** Value of a string of decimal digits, most significant first. */
  function DigitsValue(d: string): nat
    requires AllDigits(d)
  {
    if d == [] then 0 else DigitsValue(d[..|d| - 1]) * 10 + (d[|d| - 1] as int - '0' as int)
  }

  /** What `parseInt` gives: a number, or `NaN`. */
  datatype Parsed = NaN | Num(value: int)

  /** `parseInt(s, 10)`: skip leading white space, read an optional sign, then the
      longest run of decimal digits; `NaN` when that run is empty. */
  function ParseInt(s: string): (r: Parsed)
    ensures r == NaN <==>
      var t := TrimStart(s);
      var u := if t != [] && (t[0] == '-' || t[0] == '+') then t[1..] else t;
      u == [] || !IsDigit(u[0])
  {
    var t := TrimStart(s);
    var negative := t != [] && t[0] == '-';
    var u := if t != [] && (t[0] == '-' || t[0] == '+') then t[1..] else t;
    var n := DigitRun(u);
    var v: int := if n == 0 then 0 else DigitsValue(u[..n]);
    if n == 0 then NaN else Num(if negative then -v else v)
  }

  /** `parseInt(record[code], 10)`; `parseInt(undefined, 10)` is `NaN`. */
  function ParseField(f: Option<string>): (r: Parsed)
    ensures f == None ==> r == NaN
  {
    match f
    case None => NaN
    case Some(s) => ParseInt(s)
  }

  /** The decimal text of a natural number, as `String(n)` writes it. */
  function ShowNat(n: nat): (s: string)
    ensures s != [] && AllDigits(s)
  {
    var d := ['0' + (n % 10) as char];
    if n < 10 then d else ShowNat(n / 10) + d
  }

  /** The decimal text of an integer, as `String(n)` writes it. */
  function ShowInt(n: int): (s: string)
    ensures s != []
  {
    if n < 0 then "-" + ShowNat(-n) else ShowNat(n)
  }

  lemma {:induction false} ShowNatValue(n: nat)
    ensures DigitsValue(ShowNat(n)) == n
  {
    var s := ShowNat(n);
    if n >= 10 {
      ShowNatValue(n / 10);
      assert s[..|s| - 1] == ShowNat(n / 10);
    }
  }

  lemma {:induction false} DigitRunAll(s: string)
    requires AllDigits(s)
    ensures DigitRun(s) == |s|
  {
    if s != [] {
      DigitRunAll(s[1..]);
    }
  }

  /** `parseInt` reads back every integer that `String` writes. */
  lemma ParseShowInt(n: int)
    ensures ParseInt(ShowInt(n)) == Num(n)
  {
    var m: nat := if n < 0 then -n else n;
    var d := ShowNat(m);
    var s := ShowInt(n);
    assert IsDigit(d[0]);
    assert !IsJsWhitespace(s[0]) by {
      if n < 0 { assert s[0] == '-'; } else { assert s[0] == d[0]; }
    }
    assert TrimStart(s) == s;
    var u := if n < 0 then s[1..] else s;
    assert u == d by {
      if n < 0 { assert s == "-" + d; }
    }
    ParseDigits(u, m);
  }

  /** Helper: once the sign is handled, the digits are read in full. */
  lemma ParseDigits(d: string, m: nat)
    requires d == ShowNat(m)
    ensures DigitRun(d) == |d| && d[..DigitRun(d)] == d && DigitsValue(d) == m
  {
    ShowNatValue(m);
    DigitRunAll(d);
  }

  /** `parseInt` of an empty or blank text is `NaN`. */
  lemma ParseBlank(s: string)
    requires IsBlank(s)
    ensures ParseInt(s) == NaN
  {
  }

  /** `new Map(players.map(p => [p['2020'], p]))`: a later record with the same key
      replaces an earlier one. Records without a key are entered under `undefined`,
      which no pairing key (always a string) can hit; they are left out here. */
  function Index(players: seq<RawRecord>): (m: map<string, RawRecord>)
    ensures forall k :: k in m <==> exists i :: 0 <= i < |players| && Field(players[i], KeyCode) == Some(k)
    ensures forall k :: k in m ==> m[k] in players
  {
    if players == [] then map[]
    else
      var init := players[..|players| - 1];
      var last := players[|players| - 1];
      var m0 := Index(init);
      assert forall i :: 0 <= i < |init| ==> players[i] == init[i];
      if KeyCode in last then m0[last[KeyCode] := last] else m0
  }

  /** A key resolves to the LAST player record that carries it. */
  lemma {:induction false} IndexLastWins(players: seq<RawRecord>, i: nat, k: string)
    requires i < |players| && Field(players[i], KeyCode) == Some(k)
    requires forall j :: i < j < |players| ==> Field(players[j], KeyCode) != Some(k)
    ensures k in Index(players) && Index(players)[k] == players[i]
  {
    var init := players[..|players| - 1];
    if i < |players| - 1 {
      assert forall j :: i < j < |init| ==> init[j] == players[j];
      IndexLastWins(init, i, k);
    }
  }
}
