/** The text of event ids: searching a label in the text, and rewriting it, agree with what the fields
    of the id say.  The pattern is a label, an equals sign and a run of digits, with a word boundary on
    both sides. */
module LabelText {
  import opened Wrappers
  import opened CanonicalEvents

  // ---------------------------------------------------------------- the pattern `\barg=(\d+)\b`

  predicate Digit(c: char) {
    '0' <= c <= '9'
  }

  predicate Word(c: char) {
    Digit(c) || 'a' <= c <= 'z' || 'A' <= c <= 'Z' || c == '_'
  }

  /** How many digits the text starts with. */
  function DigitRun(s: string): (n: nat)
    ensures n <= |s| && (forall k :: 0 <= k < n ==> Digit(s[k])) && (n < |s| ==> !Digit(s[n]))
  {
    if s != "" && Digit(s[0]) then 1 + DigitRun(s[1..]) else 0
  }

  /** The digits of a match at the start of `s`; `inWord` says that a word character stands before it. */
  function MatchHere(inWord: bool, s: string, arg: string): Option<string> {
    if inWord || !(arg + "=" <= s) then None
    else
      var rest := s[|arg| + 1..];
      var n := DigitRun(rest);
      if n > 0 && (n == |rest| || !Word(rest[n])) then Some(rest[..n]) else None
  }

  /** `re.search`: the digits of the first match. */
  function Search(inWord: bool, s: string, arg: string): Option<string>
    decreases |s|
  {
    if s == "" then None
    else if MatchHere(inWord, s, arg).Some? then MatchHere(inWord, s, arg)
    else Search(Word(s[0]), s[1..], arg)
  }

  /** `re.sub`: every match replaced, from left to right. */
  function Sub(inWord: bool, s: string, arg: string, token: string): string
    decreases |s|
  {
    if s == "" then ""
    else
      var m := MatchHere(inWord, s, arg);
      if m.Some? then token + Sub(true, s[|arg| + 1 + |m.value|..], arg, token)
      else [s[0]] + Sub(Word(s[0]), s[1..], arg, token)
  }

  /** `int` of a run of digits. */
  function Number(s: string): nat {
    if s == "" then 0 else 10 * Number(s[..|s| - 1]) + DigitValue(s[|s| - 1])
  }

  function DigitValue(c: char): nat {
    if Digit(c) then c as int - '0' as int else 0
  }

  function Decimal(n: nat): (s: string)
    ensures s != "" && forall k :: 0 <= k < |s| ==> Digit(s[k])
  {
    if n < 10 then ['0' + n as char] else Decimal(n / 10) + ['0' + (n % 10) as char]
  }

  lemma {:induction false} DecimalIsNumber(n: nat)
    ensures Number(Decimal(n)) == n
  {
    var last := '0' + (n % 10) as char;
    if n < 10 {
      assert Decimal(n)[..0] == "" && Number("") == 0;
    } else {
      DecimalIsNumber(n / 10);
      assert (Decimal(n / 10) + [last])[..|Decimal(n / 10)|] == Decimal(n / 10);
    }
  }

  // ---------------------------------------------------------------- the text of an id

  /** How values other than numbers are written. */
  type Show = Value -> string

  function ValueText(v: Value, show: Show): string {
    if v.Num? then Decimal(v.n) else show(v)
  }

  function FieldText(f: Field, show: Show): string {
    f.name + "=" + ValueText(f.value, show)
  }

  function FieldsText(fs: seq<Field>, show: Show): string {
    if fs == [] then ")"
    else FieldText(fs[0], show) + (if |fs| == 1 then "" else ", ") + FieldsText(fs[1..], show)
  }

  /** A test id, followed by its labels in parentheses, if there are any. */
  function IdText(id: Id, show: Show): string {
    if id.fields == [] then id.base else id.base + " (" + FieldsText(id.fields, show)
  }

  predicate IsName(s: string) {
    s != "" && forall k :: 0 <= k < |s| ==> Word(s[k])
  }

  predicate IsLabel(f: Field, arg: string) {
    f.name == arg && f.value.Num?
  }

  /** No field but the labels contains a match, taken by itself. */
  predicate FieldsClear(fs: seq<Field>, show: Show, arg: string) {
    forall k :: 0 <= k < |fs| ==> IsLabel(fs[k], arg) || Search(false, FieldText(fs[k], show), arg).None?
  }

  /** No piece of the id but its labels contains a match, taken by itself. */
  predicate NoneHidden(id: Id, show: Show, arg: string) {
    Search(false, id.base, arg).None? && FieldsClear(id.fields, show, arg)
  }

  // ---------------------------------------------------------------- matches never cross a separator

  /** What neither a label nor a run of digits contains. */
  predicate Separates(s: string) {
    s != "" && !Word(s[0]) && s[0] != '='
  }

  lemma NoMatchAtSeparator(inWord: bool, s: string, arg: string)
    requires IsName(arg) && s != "" && !Word(s[0])
    ensures MatchHere(inWord, s, arg).None?
  {
    var key := arg + "=";
    assert key[0] == arg[0] && Word(arg[0]);
  }

  lemma RunStays(digits: string, t: string)
    requires t == "" || !Digit(t[0])
    ensures DigitRun(digits + t) == DigitRun(digits)
  {
    var m, n := DigitRun(digits + t), DigitRun(digits);
    assert forall k :: 0 <= k < |digits| ==> (digits + t)[k] == digits[k];
    assert t != "" ==> (digits + t)[|digits|] == t[0];
  }

  /** A match of the text before a separator is a match of that text alone. */
  lemma MatchStays(inWord: bool, u: string, t: string, arg: string)
    requires IsName(arg) && Separates(t)
    ensures MatchHere(inWord, u + t, arg) == MatchHere(inWord, u, arg)
  {
    var key := arg + "=";
    assert key <= u ==> key <= u + t;
    if key <= u + t {
      LabelStays(key, u, t);
      var rest := u[|key|..];
      assert (u + t)[|key|..] == rest + t;
      RunStays(rest, t);
      var n := DigitRun(rest);
      assert (rest + t)[..n] == rest[..n];
      assert (rest + t)[n] == if n < |rest| then rest[n] else t[0];
    }
  }

  lemma LabelStays(key: string, u: string, t: string)
    requires key <= u + t && Separates(t) && forall k :: 0 <= k < |key| ==> Word(key[k]) || key[k] == '='
    ensures key <= u
  {
    assert forall k :: 0 <= k < |key| ==> (u + t)[k] == key[k];
    assert (u + t)[|u|] == t[0];
    assert |key| <= |u|;
    assert (u + t)[..|key|] == u[..|key|];
  }

  /** The digits of a match belong to the text. */
  lemma MatchFits(inWord: bool, s: string, arg: string)
    requires MatchHere(inWord, s, arg).Some?
    ensures |arg| + 1 + |MatchHere(inWord, s, arg).value| <= |s|
  {
  }

  lemma OneStep(inWord: bool, s: string, arg: string, token: string)
    requires s != "" && MatchHere(inWord, s, arg).None?
    ensures Search(inWord, s, arg) == Search(Word(s[0]), s[1..], arg)
    ensures Sub(inWord, s, arg, token) == [s[0]] + Sub(Word(s[0]), s[1..], arg, token)
  {
  }

  /** Before a separator it does not matter what stands there. */
  lemma AnyFlag(inWord: bool, t: string, arg: string, token: string)
    requires IsName(arg) && Separates(t)
    ensures Search(inWord, t, arg) == Search(false, t, arg) && Sub(inWord, t, arg, token) == Sub(false, t, arg, token)
  {
    NoMatchAtSeparator(inWord, t, arg);
    NoMatchAtSeparator(false, t, arg);
    OneStep(inWord, t, arg, token);
    OneStep(false, t, arg, token);
  }

  lemma Regroup(a: string, b: string, c: string)
    ensures a + (b + c) == (a + b) + c
  {
  }

  /** Searching and replacing work piece by piece. */
  lemma {:induction false} Pieces(inWord: bool, u: string, t: string, arg: string, token: string)
    requires IsName(arg) && Separates(t)
    ensures Search(inWord, u + t, arg) == var found := Search(inWord, u, arg); if found.Some? then found else Search(false, t, arg)
    ensures Sub(inWord, u + t, arg, token) == Sub(inWord, u, arg, token) + Sub(false, t, arg, token)
    decreases |u|
  {
    MatchStays(inWord, u, t, arg);
    if u == "" {
      assert u + t == t;
      AnyFlag(inWord, t, arg, token);
    } else if MatchHere(inWord, u, arg).Some? {
      MatchFits(inWord, u, arg);
      var n := |arg| + 1 + |MatchHere(inWord, u, arg).value|;
      assert (u + t)[n..] == u[n..] + t;
      Pieces(true, u[n..], t, arg, token);
      Regroup(token, Sub(true, u[n..], arg, token), Sub(false, t, arg, token));
    } else {
      assert (u + t)[1..] == u[1..] + t;
      OneStep(inWord, u + t, arg, token);
      Pieces(Word(u[0]), u[1..], t, arg, token);
      Regroup([u[0]], Sub(Word(u[0]), u[1..], arg, token), Sub(false, t, arg, token));
    }
  }

  predicate Separator(sep: string) {
    sep in [" (", ", ", ")"]
  }

  lemma AfterSeparator(sep: string, t: string, arg: string, token: string)
    requires IsName(arg) && Separator(sep)
    ensures Separates(sep + t)
    ensures Search(false, sep + t, arg) == Search(false, t, arg) && Sub(false, sep + t, arg, token) == sep + Sub(false, t, arg, token)
  {
    NoMatchAtSeparator(false, sep + t, arg);
    OneStep(false, sep + t, arg, token);
    assert (sep + t)[1..] == sep[1..] + t;
    if |sep| == 2 {
      NoMatchAtSeparator(false, sep[1..] + t, arg);
      OneStep(false, sep[1..] + t, arg, token);
      assert (sep[1..] + t)[1..] == t;
      assert [sep[0]] + ([sep[1]] + Sub(false, t, arg, token)) == sep + Sub(false, t, arg, token);
    } else {
      assert sep[1..] + t == t;
    }
  }

  /** A piece, a separator, and the rest. */
  lemma Piece(u: string, sep: string, t: string, arg: string, token: string)
    requires IsName(arg) && Separator(sep)
    ensures Search(false, u + sep + t, arg) == var found := Search(false, u, arg); if found.Some? then found else Search(false, t, arg)
    ensures Sub(false, u + sep + t, arg, token) == Sub(false, u, arg, token) + sep + Sub(false, t, arg, token)
  {
    AfterSeparator(sep, t, arg, token);
    Pieces(false, u, sep + t, arg, token);
    Regroup(u, sep, t);
    Regroup(Sub(false, u, arg, token), sep, Sub(false, t, arg, token));
  }

  /** Without a match nothing is replaced. */
  lemma {:induction false} Untouched(inWord: bool, u: string, arg: string, token: string)
    requires Search(inWord, u, arg).None?
    ensures Sub(inWord, u, arg, token) == u
    decreases |u|
  {
    if u != "" {
      Untouched(Word(u[0]), u[1..], arg, token);
      assert [u[0]] + u[1..] == u;
    }
  }

  /** A replacement that is not a number shows, whatever follows. */
  lemma {:induction false} Touched(inWord: bool, u: string, arg: string, word: string, s: string, t: string)
    requires Search(inWord, u, arg).Some? && word != "" && !Digit(word[0])
    ensures Sub(inWord, u, arg, arg + "=" + word) + s != u + t
    decreases |u|
  {
    var token := arg + "=" + word;
    var m := MatchHere(inWord, u, arg);
    if m.Some? {
      MatchFits(inWord, u, arg);
      assert (u + t)[|arg| + 1] == u[|arg| + 1..][0] == m.value[0];
      assert (Sub(inWord, u, arg, token) + s)[|arg| + 1] == token[|arg| + 1] == word[0];
    } else {
      var rest := Sub(Word(u[0]), u[1..], arg, token);
      Touched(Word(u[0]), u[1..], arg, word, s, t);
      assert ([u[0]] + rest + s)[1..] == rest + s && (u + t)[1..] == u[1..] + t;
    }
  }

  // ---------------------------------------------------------------- labels in text and in fields

  /** A label is found, and replaced as a whole. */
  lemma LabelPiece(n: nat, arg: string, token: string)
    requires IsName(arg)
    ensures Search(false, arg + "=" + Decimal(n), arg) == Some(Decimal(n)) && Sub(false, arg + "=" + Decimal(n), arg, token) == token
  {
    var digits := Decimal(n);
    var s := arg + "=" + digits;
    assert arg + "=" <= s && s[|arg| + 1..] == digits && digits + "" == digits;
    AllDigits(digits);
    assert digits[..|digits|] == digits && s[|arg| + 1 + |digits|..] == "";
    assert token + "" == token;
  }

  lemma AllDigits(digits: string)
    requires forall k :: 0 <= k < |digits| ==> Digit(digits[k])
    ensures DigitRun(digits) == |digits|
  {
  }

  /** How a field is separated from what follows. */
  function End(fs: seq<Field>): string
    requires fs != []
  {
    if |fs| == 1 then ")" else ", "
  }

  function After(fs: seq<Field>, show: Show): string
    requires fs != []
  {
    if |fs| == 1 then "" else FieldsText(fs[1..], show)
  }

  lemma FieldsTextSplits(fs: seq<Field>, show: Show)
    requires fs != []
    ensures FieldsText(fs, show) == FieldText(fs[0], show) + End(fs) + After(fs, show)
  {
    if |fs| == 1 {
      assert fs[1..] == [];
    }
  }

  lemma RelabelTail(fs: seq<Field>, arg: string, v: Value)
    requires fs != []
    ensures Relabel(fs, arg, v)[1..] == Relabel(fs[1..], arg, v)
  {
  }

  /** The text of some fields, split after the first one, before and after. */
  lemma FieldsInPieces(fs: seq<Field>, show: Show, arg: string, v: Value, token: string)
    requires IsName(arg) && fs != []
    ensures Search(false, FieldsText(fs, show), arg)
            == var found := Search(false, FieldText(fs[0], show), arg); if found.Some? then found else Search(false, After(fs, show), arg)
    ensures Sub(false, FieldsText(fs, show), arg, token)
            == Sub(false, FieldText(fs[0], show), arg, token) + End(fs) + Sub(false, After(fs, show), arg, token)
    ensures FieldsText(Relabel(fs, arg, v), show)
            == FieldText(Relabel(fs, arg, v)[0], show) + End(fs) + After(Relabel(fs, arg, v), show)
    ensures After(Relabel(fs, arg, v), show) == if |fs| == 1 then "" else FieldsText(Relabel(fs[1..], arg, v), show)
  {
    FieldsTextSplits(fs, show);
    Piece(FieldText(fs[0], show), End(fs), After(fs, show), arg, token);
    FieldsTextSplits(Relabel(fs, arg, v), show);
    RelabelTail(fs, arg, v);
  }

  /** When nothing else matches, searching finds the first number of that name, and replacing rewrites
      every number of that name and nothing else. */
  lemma {:induction false} FieldsAgree(fs: seq<Field>, show: Show, arg: string, v: Value, token: string)
    requires IsName(arg) && fs != [] && FieldsClear(fs, show, arg) && !v.Num? && token == arg + "=" + show(v)
    ensures var found := LineLabel(fs, arg);
            Search(false, FieldsText(fs, show), arg) == if found.Some? then Some(Decimal(found.value)) else None
    ensures Sub(false, FieldsText(fs, show), arg, token) == FieldsText(Relabel(fs, arg, v), show)
    decreases |fs|
  {
    FieldsInPieces(fs, show, arg, v, token);
    if |fs| > 1 {
      assert forall k :: 0 <= k < |fs[1..]| ==> fs[1..][k] == fs[k + 1];
      FieldsAgree(fs[1..], show, arg, v, token);
    }
    if IsLabel(fs[0], arg) {
      LabelPiece(fs[0].value.n, arg, token);
    } else {
      Untouched(false, FieldText(fs[0], show), arg, token);
    }
  }

  /** When something else matches, it is rewritten too. */
  lemma {:induction false} FieldsDiffer(fs: seq<Field>, show: Show, arg: string, v: Value, token: string)
    requires IsName(arg) && fs != [] && !FieldsClear(fs, show, arg)
    requires !v.Num? && show(v) != "" && !Digit(show(v)[0]) && token == arg + "=" + show(v)
    ensures Sub(false, FieldsText(fs, show), arg, token) != FieldsText(Relabel(fs, arg, v), show)
    decreases |fs|
  {
    FieldsInPieces(fs, show, arg, v, token);
    var first, last, after := FieldText(fs[0], show), Sub(false, After(fs, show), arg, token), After(Relabel(fs, arg, v), show);
    if !IsLabel(fs[0], arg) && Search(false, first, arg).Some? {
      Touched(false, first, arg, show(v), End(fs) + last, End(fs) + after);
      Regroup(Sub(false, first, arg, token), End(fs), last);
      Regroup(first, End(fs), after);
    } else {
      assert |fs| > 1 && !FieldsClear(fs[1..], show, arg);
      FieldsDiffer(fs[1..], show, arg, v, token);
      if IsLabel(fs[0], arg) {
        LabelPiece(fs[0].value.n, arg, token);
      } else {
        Untouched(false, first, arg, token);
      }
      Cancel(FieldText(Relabel(fs, arg, v)[0], show) + End(fs), last, after);
    }
  }

  lemma Cancel(a: string, b: string, c: string)
    requires b != c
    ensures a + b != a + c
  {
    assert (a + b)[|a|..] == b && (a + c)[|a|..] == c;
  }

  /** Rewriting the text of an id is rewriting its fields if and only if no other piece of the id hides a
      match; and then searching the text finds the label that the fields have. */
  lemma IdAgrees(id: Id, show: Show, arg: string, v: Value, token: string)
    requires IsName(arg) && !v.Num? && show(v) != "" && !Digit(show(v)[0]) && token == arg + "=" + show(v)
    ensures NoneHidden(id, show, arg) ==>
              var found := LineLabel(id.fields, arg);
              Search(false, IdText(id, show), arg) == if found.Some? then Some(Decimal(found.value)) else None
    ensures Sub(false, IdText(id, show), arg, token) == IdText(id.(fields := Relabel(id.fields, arg, v)), show) <==>
              NoneHidden(id, show, arg)
  {
    var fs := id.fields;
    if Search(false, id.base, arg).Some? {
      HiddenInBase(id, show, arg, v, token);
    } else {
      Untouched(false, id.base, arg, token);
      if fs != [] {
        Piece(id.base, " (", FieldsText(fs, show), arg, token);
        if FieldsClear(fs, show, arg) {
          FieldsAgree(fs, show, arg, v, token);
        } else {
          FieldsDiffer(fs, show, arg, v, token);
          Cancel(id.base + " (", Sub(false, FieldsText(fs, show), arg, token), FieldsText(Relabel(fs, arg, v), show));
        }
      }
    }
  }

  lemma HiddenInBase(id: Id, show: Show, arg: string, v: Value, token: string)
    requires IsName(arg) && show(v) != "" && !Digit(show(v)[0]) && token == arg + "=" + show(v)
    requires Search(false, id.base, arg).Some?
    ensures Sub(false, IdText(id, show), arg, token) != IdText(id.(fields := Relabel(id.fields, arg, v)), show)
  {
    var fs := id.fields;
    var base := Sub(false, id.base, arg, token);
    if fs == [] {
      Touched(false, id.base, arg, show(v), "", "");
      assert base + "" == base && id.base + "" == id.base;
    } else {
      var s, t := Sub(false, FieldsText(fs, show), arg, token), FieldsText(Relabel(fs, arg, v), show);
      Piece(id.base, " (", FieldsText(fs, show), arg, token);
      Touched(false, id.base, arg, show(v), " (" + s, " (" + t);
      Regroup(base, " (", s);
      Regroup(id.base, " (", t);
    }
  }

  // ---------------------------------------------------------------- events

  /** `id.split(" (", 1)[0]`. */
  function BaseOf(s: string): string {
    if |s| < 2 then s else if s[0] == ' ' && s[1] == '(' then "" else [s[0]] + BaseOf(s[1..])
  }

  predicate NoOpening(s: string) {
    forall k :: 0 <= k < |s| - 1 ==> !(s[k] == ' ' && s[k + 1] == '(')
  }

  /** The base is found exactly when the opening does not occur in it. */
  lemma {:induction false} BaseIsFound(base: string, t: string)
    ensures BaseOf(base) == base <==> NoOpening(base)
    ensures BaseOf(base + " (" + t) == base <==> NoOpening(base)
  {
    var text := base + " (" + t;
    if base == "" {
      assert text[0] == ' ' && text[1] == '(';
    } else {
      BaseIsFound(base[1..], t);
      assert text[1..] == base[1..] + " (" + t;
      assert base == [base[0]] + base[1..];
      assert |base| == 1 ==> text[1] == ' ';
      assert |base| > 1 ==> text[1] == base[1];
      assert forall k :: 0 <= k < |base[1..]| ==> base[1..][k] == base[k + 1];
      OpeningInTail(base);
    }
  }

  lemma OpeningInTail(base: string)
    requires base != ""
    ensures NoOpening(base) <==> NoOpening(base[1..]) && !(|base| > 1 && base[0] == ' ' && base[1] == '(')
  {
    if NoOpening(base[1..]) && !(|base| > 1 && base[0] == ' ' && base[1] == '(') {
      forall k | 0 <= k < |base| - 1 ensures !(base[k] == ' ' && base[k + 1] == '(') {
        if k > 0 {
          assert base[1..][k - 1] == base[k] && base[1..][k] == base[k + 1];
        }
      }
    }
    if NoOpening(base) {
      forall k | 0 <= k < |base[1..]| - 1 ensures !(base[1..][k] == ' ' && base[1..][k + 1] == '(') {
        assert base[1..][k] == base[k + 1] && base[1..][k + 1] == base[k + 2];
      }
    }
  }

  type Digest = (string, string, nat) -> string

  /** What the loop of `canonical_events` does to the text of one event, `offset` selected subtests of the
      same parent after the first: nothing, or the rewritten text, or it raises. */
  function RewriteText(sel: Selectors, offset: nat, text: string, subTest: bool, digest: Digest): Option<string> {
    var base := BaseOf(text);
    if base !in sel || !subTest then Some(text)
    else
      var c := sel[base];
      if offset >= |c.choices| then None
      else
        var found := Search(false, text, c.arg);
        if found.None? || Number(found.value) != c.choices[offset].line then None
        else Some(Sub(false, text, c.arg, c.arg + "=ast:" + digest(base, c.choices[offset].dump, offset)))
  }

  /** The rewritten label is written as a digest of what it selects. */
  ghost predicate WritesDigests(show: Show, digest: Digest) {
    forall p, d, k :: show(Selector(p, d, k)) == "ast:" + digest(p, d, k)
  }

  /** The `i`th event hides no match outside its label. */
  predicate Readable(sel: Selectors, e: Event, show: Show) {
    Selected(sel, e) ==> NoneHidden(e.id, show, sel[e.id.base].arg)
  }

  /** What the fields of the `i`th event become, as a text. */
  function FieldRewrite(sel: Selectors, es: seq<Event>, i: nat, show: Show): Option<string>
    requires i < |es|
  {
    if Proven(sel, es, i) then Some(IdText(JoinedEvent(sel, es, i).id, show)) else None
  }

  /** On the text of an id the source does exactly what the model does on its fields, if the id hides no
      other match: it accepts the same events, and what it writes is the text of the joined event.  For
      an event that the model accepts, it does so only if the id hides none. */
  lemma TextIsJoined(sel: Selectors, es: seq<Event>, i: nat, show: Show, digest: Digest)
    requires i < |es| && NoOpening(es[i].id.base) && WritesDigests(show, digest)
    requires es[i].id.base in sel ==> IsName(sel[es[i].id.base].arg)
    ensures var e := es[i];
            var text := RewriteText(sel, Seen(sel, es, e.id.base, i), IdText(e.id, show), e.outcome.SubTest?, digest);
            && (Readable(sel, e, show) ==> text == FieldRewrite(sel, es, i, show))
            && (Proven(sel, es, i) && text == FieldRewrite(sel, es, i, show) ==> Readable(sel, e, show))
  {
    var e := es[i];
    BaseOfId(e.id, show);
    if Selected(sel, e) {
      var c, k := sel[e.id.base], Seen(sel, es, e.id.base, i);
      if k < |c.choices| {
        RewriteOfLabel(e.id, show, c.arg, c.choices[k], k, digest);
      }
    }
  }

  lemma BaseOfId(id: Id, show: Show)
    requires NoOpening(id.base)
    ensures BaseOf(IdText(id, show)) == id.base
  {
    BaseIsFound(id.base, if id.fields == [] then "" else FieldsText(id.fields, show));
  }

  /** One label: it is found in the text as in the fields, and replaced by the digest of the `k`th lambda. */
  lemma RewriteOfLabel(id: Id, show: Show, arg: string, choice: Lambda, k: nat, digest: Digest)
    requires IsName(arg) && WritesDigests(show, digest)
    ensures NoneHidden(id, show, arg) ==>
              var found, line := Search(false, IdText(id, show), arg), LineLabel(id.fields, arg);
              if line.Some? then found.Some? && Number(found.value) == line.value else found.None?
    ensures Sub(false, IdText(id, show), arg, arg + "=ast:" + digest(id.base, choice.dump, k))
            == IdText(id.(fields := Relabel(id.fields, arg, Selector(id.base, choice.dump, k))), show)
            <==> NoneHidden(id, show, arg)
  {
    var v := Selector(id.base, choice.dump, k);
    var token := arg + "=ast:" + digest(id.base, choice.dump, k);
    assert show(v) == "ast:" + digest(id.base, choice.dump, k);
    assert token == arg + "=" + show(v);
    IdAgrees(id, show, arg, v, token);
    var line := LineLabel(id.fields, arg);
    if line.Some? {
      DecimalIsNumber(line.value);
    }
  }

  lemma RecognisedIsWord(c: Channel)
    requires Recognised(c)
    ensures IsName(c.arg)
  {
    assert IsName("consumer") && IsName("mutation");
    assert c.arg in LINE_SELECTORS.Values;
  }

  /** Both recognised selectors name their label by a word. */
  lemma SelectorNamesAreWords(cs: seq<Channel>, key: string)
    requires ChannelsOk(cs) && key in SelectorsOf(cs)
    ensures IsName(SelectorsOf(cs)[key].arg)
  {
    SelectorKeys(cs);
    RecognisedIsWord(SelectorsOf(cs)[key]);
  }
}
