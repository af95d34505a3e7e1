/** The dispatch-tracking page: how it shows WhatsApp numbers, how it
    narrows the dispatch records down with its filters, and which options
    its drop-down filters offer. */
module Tracking {
  import opened Wrappers
  import opened Text

  // ---------------------------------------------------------------- phone display

  /** `toDigits`: the digits of the value's text; a missing value has none. */
  function ToDigits(v: Option<string>): (r: string)
    ensures AllDigits(r)
    ensures v.None? ==> r == []
  {
    DigitsOf(OrEmpty(v))
  }

  /** The digits after one leading country code `55`, if there is one. */
  function LocalPart(digits: string): string
  {
    if StartsWith(digits, "55") then digits[2..] else digits
  }

  /** `+55 (DD) first-rest`, the number split after `k` digits. */
  function Grouped(ddd: string, num: string, k: nat): string
    requires k <= |num|
  {
    "+55 (" + ddd + ") " + num[..k] + "-" + num[k..]
  }

  /** `formatWhatsapp`: the display form of a phone number. */
  function FormatWhatsapp(v: Option<string>): (r: string)
    ensures r == [] <==> ToDigits(v) == []
    ensures r != [] ==> |r| > 4 && r[..4] == "+55 "
  {
    var digits := ToDigits(v);
    if digits == [] then ""
    else
      var rest := LocalPart(digits);
      if |rest| < 10 then "+55 " + digits
      else
        var ddd, num := rest[..2], rest[2..];
        if |num| == 9 then Grouped(ddd, num, 5)
        else if |num| == 8 then Grouped(ddd, num, 4)
        else
          var split := if |num| > 5 then 5 else HalfUp(|num|);
          Grouped(ddd, num, split)
  }

  /** `Math.ceil(n / 2)`. */
  function HalfUp(n: int): (r: int)
    ensures n >= 0 ==> 0 <= r <= n && n <= 2 * r
  {
    (n + 1) / 2
  }

  /** A value without digits shows as nothing; any other value shows with
      the country code `+55 ` in front. */
  lemma FormatWhatsappShape(v: Option<string>)
    ensures FormatWhatsapp(v) == "" <==> ToDigits(v) == []
    ensures ToDigits(v) != [] ==> StartsWith(FormatWhatsapp(v), "+55 ")
  {
    var digits := ToDigits(v);
    if digits != [] {
      var rest := LocalPart(digits);
      if |rest| >= 10 {
        FormatWhatsappLayout(v);
        GroupedStart(rest[..2], rest[2..], if |rest| == 10 then 4 else 5);
      } else {
        CodeStart("+55 ", digits);
      }
    }
  }

  lemma CodeStart(code: string, t: string)
    ensures StartsWith(code + t, code)
  {
    assert (code + t)[..|code|] == code;
  }

  lemma GroupedStart(ddd: string, num: string, k: nat)
    requires k <= |num|
    ensures StartsWith(Grouped(ddd, num, k), "+55 ")
  {
    var tail := ddd + ") " + num[..k] + "-" + num[k..];
    assert Grouped(ddd, num, k) == "+55 (" + tail;
    assert "+55 (" + tail == "+55 " + ("(" + tail);
    CodeStart("+55 ", "(" + tail);
  }

  /** The digits shown are `55` followed by the local part, or, when the
      local part is shorter than ten digits, `55` followed by every digit of
      the value: nothing is lost or reordered. */
  lemma FormatWhatsappDigits(v: Option<string>)
    requires ToDigits(v) != []
    ensures var rest := LocalPart(ToDigits(v));
            DigitsOf(FormatWhatsapp(v)) == "55" + (if |rest| < 10 then ToDigits(v) else rest)
  {
    if |LocalPart(ToDigits(v))| < 10 {
      ShortDigits(v);
    } else {
      LongDigits(v);
    }
  }

  lemma ShortDigits(v: Option<string>)
    requires ToDigits(v) != [] && |LocalPart(ToDigits(v))| < 10
    ensures DigitsOf(FormatWhatsapp(v)) == "55" + ToDigits(v)
  {
    CodeDigits("+55 ", ToDigits(v));
    PrefixDigits();
  }

  lemma LongDigits(v: Option<string>)
    requires |LocalPart(ToDigits(v))| >= 10
    ensures DigitsOf(FormatWhatsapp(v)) == "55" + LocalPart(ToDigits(v))
  {
    var rest := LocalPart(ToDigits(v));
    FormatWhatsappLayout(v);
    GroupedDigits(rest[..2], rest[2..], if |rest| == 10 then 4 else 5);
    assert rest[..2] + rest[2..] == rest;
  }

  /** A code in front of digits adds the code's digits in front. */
  lemma CodeDigits(code: string, digits: string)
    requires AllDigits(digits)
    ensures DigitsOf(code + digits) == DigitsOf(code) + digits
  {
    DigitsOfConcat(code, digits);
    DigitsOfDigits(digits);
  }

  /** The digits of the fixed pieces of a shown number. */
  lemma PrefixDigits()
    ensures DigitsOf("+55 ") == "55" && DigitsOf("+55 (") == "55"
    ensures DigitsOf(") ") == [] && DigitsOf("-") == []
  {
  }

  /** The digits of a grouped number are `55`, the area code and the number. */
  lemma GroupedDigits(ddd: string, num: string, k: nat)
    requires AllDigits(ddd) && AllDigits(num) && k <= |num|
    ensures DigitsOf(Grouped(ddd, num, k)) == "55" + ddd + num
  {
    PrefixDigits();
    SeparatedDigits("+55 (", ") ", "-", ddd, num, k);
  }

  /** Digits between pieces whose only digits are the country code. */
  lemma SeparatedDigits(open: string, close: string, dash: string, ddd: string, num: string, k: nat)
    requires DigitsOf(open) == "55" && DigitsOf(close) == [] && DigitsOf(dash) == []
    requires AllDigits(ddd) && AllDigits(num) && k <= |num|
    ensures DigitsOf(open + ddd + close + num[..k] + dash + num[k..]) == "55" + ddd + num
  {
    var a, b := num[..k], num[k..];
    var s1 := open + ddd;
    assert DigitsOf(s1) == "55" + ddd by { DigitsOfConcat(open, ddd); DigitsOfDigits(ddd); }
    var s2 := s1 + close;
    assert DigitsOf(s2) == "55" + ddd by { DigitsOfConcat(s1, close); }
    var s3 := s2 + a;
    assert DigitsOf(s3) == "55" + ddd + a by { DigitsOfConcat(s2, a); DigitsOfDigits(a); }
    var s4 := s3 + dash;
    assert DigitsOf(s4) == "55" + ddd + a by { DigitsOfConcat(s3, dash); }
    var s5 := s4 + b;
    assert DigitsOf(s5) == "55" + ddd + a + b by { DigitsOfConcat(s4, b); DigitsOfDigits(b); }
    assert "55" + ddd + a + b == "55" + ddd + num by { assert a + b == num; }
  }

  /** Once the local part has ten digits or more, the area code is its first
      two digits and the rest is split after five digits, or after four
      when eight are left: the halving fallback never applies. */
  lemma FormatWhatsappLayout(v: Option<string>)
    requires |LocalPart(ToDigits(v))| >= 10
    ensures var rest := LocalPart(ToDigits(v));
            FormatWhatsapp(v) == Grouped(rest[..2], rest[2..], if |rest| == 10 then 4 else 5)
  {
  }

  /** A mobile number, with or without the country code, shows as
      `+55 (DD) NNNNN-NNNN`. */
  lemma FormatWhatsappMobile(ddd: string, num: string)
    requires AllDigits(ddd) && AllDigits(num) && |ddd| == 2 && |num| == 9
    ensures FormatWhatsapp(Some("55" + ddd + num)) == Grouped(ddd, num, 5)
    ensures ddd != "55" ==> FormatWhatsapp(Some(ddd + num)) == Grouped(ddd, num, 5)
  {
    LocalNumber(ddd, num);
  }

  /** A landline number, with or without the country code, shows as
      `+55 (DD) NNNN-NNNN`. */
  lemma FormatWhatsappLandline(ddd: string, num: string)
    requires AllDigits(ddd) && AllDigits(num) && |ddd| == 2 && |num| == 8
    ensures FormatWhatsapp(Some("55" + ddd + num)) == Grouped(ddd, num, 4)
    ensures ddd != "55" ==> FormatWhatsapp(Some(ddd + num)) == Grouped(ddd, num, 4)
  {
    LocalNumber(ddd, num);
  }

  /** The local part of a number written with or without the country code. */
  lemma LocalNumber(ddd: string, num: string)
    requires AllDigits(ddd) && AllDigits(num) && |ddd| == 2
    ensures ToDigits(Some("55" + ddd + num)) == "55" + ddd + num
    ensures LocalPart("55" + ddd + num) == ddd + num
    ensures ToDigits(Some(ddd + num)) == ddd + num
    ensures ddd != "55" ==> LocalPart(ddd + num) == ddd + num
  {
    var local := ddd + num;
    assert AllDigits(local) && AllDigits("55" + local);
    DigitsOfDigits(local);
    DigitsOfDigits("55" + local);
    assert "55" + ddd + num == "55" + local;
    assert ("55" + local)[..2] == "55" && ("55" + local)[2..] == local;
    if ddd != "55" {
      assert local[..2] == ddd;
    }
  }

  /** Showing a shown number again changes nothing once the local part
      has ten digits or more. */
  lemma FormatWhatsappIdempotent(v: Option<string>)
    requires |LocalPart(ToDigits(v))| >= 10
    ensures FormatWhatsapp(Some(FormatWhatsapp(v))) == FormatWhatsapp(v)
  {
    var digits := ToDigits(v);
    var rest := LocalPart(digits);
    assert digits != [];
    FormatWhatsappDigits(v);
    var shown := "55" + rest;
    assert ToDigits(Some(FormatWhatsapp(v))) == shown;
    assert shown[..2] == "55" && shown[2..] == rest;
    assert LocalPart(shown) == rest;
  }

  // ---------------------------------------------------------------- dispatch records

  /** `sendStatus` as the server sends it: absent, `null`, or a number. */
  datatype SendStatus = Missing | NullCode | Code(n: int)

  /** `Number(sendStatus)`; `None` stands for `NaN`. */
  function NumberOf(s: SendStatus): Option<int>
  {
    match s
    case Missing => None
    case NullCode => Some(0)
    case Code(n) => Some(n)
  }

  /** `sendStatus?.toString()`; `None` stands for `undefined`. */
  function StatusString(s: SendStatus): Option<string>
  {
    if s.Code? then Some(IntToString(s.n)) else None
  }

  /** One dispatch record of the tracking list. A text field the server
      leaves out is `None`. */
  datatype Item = Item(id: Option<string>, name: Option<string>, phone: Option<string>,
                       nameBatch: Option<string>, displayPhone: Option<string>,
                       scheduledDateTime: Option<string>, createdAt: Option<string>,
                       sendStatus: SendStatus, typeError: Option<string>,
                       template: Option<string>)

  /** `getStatusText`, and the label of `statusBadge`. */
  function StatusText(s: SendStatus): (r: string)
    ensures r in {"Enviado", "Erro", "Pendente", "Indefinido"}
    ensures s.Missing? ==> r == "Indefinido"
  {
    var n := NumberOf(s);
    if n == Some(1) then "Enviado"
    else if n == Some(2) then "Erro"
    else if n == Some(0) then "Pendente"
    else "Indefinido"
  }

  /** Each label stands for exactly one status number; `null` counts as 0
      and an absent status as none. */
  lemma StatusTextCases(s: SendStatus)
    ensures StatusText(s) == "Enviado" <==> s == Code(1)
    ensures StatusText(s) == "Erro" <==> s == Code(2)
    ensures StatusText(s) == "Pendente" <==> s == Code(0) || s == NullCode
    ensures StatusText(s) == "Indefinido" <==> s == Missing || (s.Code? && s.n !in {0, 1, 2})
  {
  }

  /** What the reason column of the table shows (`renderMotivo`). */
  datatype ReasonIcon = SuccessIcon | ErrorIcon(message: string) | NoReason

  function RenderMotivo(typeError: Option<string>, sendStatus: SendStatus): ReasonIcon
  {
    if !Truthy(typeError) && NumberOf(sendStatus) == Some(1) then SuccessIcon
    else if Truthy(typeError) then ErrorIcon(typeError.value)
    else NoReason
  }

  /** The reason column of the exported file. */
  function Motivo(x: Item): (r: string)
    ensures Truthy(x.typeError) ==> r == x.typeError.value
    ensures r != [] <==> Truthy(x.typeError) || NumberOf(x.sendStatus) == Some(1)
  {
    if Truthy(x.typeError) then x.typeError.value
    else if NumberOf(x.sendStatus) == Some(1) then "Enviado com Sucesso"
    else ""
  }

  /** The exported reason is the tooltip the table shows: the error text
      under the error icon, the success text under the success icon, and
      nothing where the table shows `-`. */
  lemma MotivoAsShown(x: Item)
    ensures Motivo(x) == "" <==> RenderMotivo(x.typeError, x.sendStatus) == NoReason
    ensures RenderMotivo(x.typeError, x.sendStatus) == SuccessIcon ==> Motivo(x) == "Enviado com Sucesso"
    ensures RenderMotivo(x.typeError, x.sendStatus).ErrorIcon? ==>
              Motivo(x) == RenderMotivo(x.typeError, x.sendStatus).message
  {
  }

  // ---------------------------------------------------------------- filters

  /** The filter inputs; an empty one is off. */
  datatype Filters = Filters(campanha: string, status: string, dataAgendada: string,
                             dataCriacao: string, template: string, busca: string)

  datatype FilterField = Campanha | Status | DataAgendada | DataCriacao | TemplateFilter | Busca

  /** Every filter off. */
  function NoFilters(): Filters
  {
    Filters("", "", "", "", "", "")
  }

  function FilterValue(f: Filters, k: FilterField): string
  {
    match k
    case Campanha => f.campanha
    case Status => f.status
    case DataAgendada => f.dataAgendada
    case DataCriacao => f.dataCriacao
    case TemplateFilter => f.template
    case Busca => f.busca
  }

  /** `{ ...prev, [field]: value }`. */
  function WithFilter(f: Filters, k: FilterField, value: string): (r: Filters)
    ensures FilterValue(r, k) == value
    ensures forall j :: j != k ==> FilterValue(r, j) == FilterValue(f, j)
  {
    match k
    case Campanha => f.(campanha := value)
    case Status => f.(status := value)
    case DataAgendada => f.(dataAgendada := value)
    case DataCriacao => f.(dataCriacao := value)
    case TemplateFilter => f.(template := value)
    case Busca => f.(busca := value)
  }

  /** The instant a date text stands for, when it is one: `new Date(text)`
      read as a number of milliseconds. Date parsing is a parameter. */
  type DateReader = string -> Option<int>

  /** `getDateFromTimestamp` compared with the filter's date: an item
      without a date, or a date that is not one, never passes. */
  predicate Since(item: Option<string>, from: Option<int>, readDate: DateReader)
  {
    Truthy(item) && readDate(item.value).Some? && from.Some? && readDate(item.value).value >= from.value
  }

  /** One of the tests `applyFilters` runs, with its argument. */
  datatype Test =
    | CampaignIs(campaign: string)
    | StatusIs(status: string)
    | ScheduledSince(from: Option<int>)
    | CreatedSince(from: Option<int>)
    | TemplateIs(template: string)
    | Search(term: string)

  predicate Passes(x: Item, t: Test, readDate: DateReader)
  {
    match t
    case CampaignIs(c) => x.nameBatch == Some(c)
    case StatusIs(s) => StatusString(x.sendStatus) == Some(s)
    case ScheduledSince(d) => Since(x.scheduledDateTime, d, readDate)
    case CreatedSince(d) => Since(x.createdAt, d, readDate)
    case TemplateIs(tp) => x.template == Some(tp)
    case Search(term) => Found(x, term)
  }

  /** The search: the lower-cased name or either shown phone number
      holds the lower-cased term. */
  predicate Found(x: Item, term: string)
  {
    (x.name.Some? && Contains(Lower(x.name.value), term))
    || Contains(Lower(FormatWhatsapp(x.phone)), term)
    || Contains(Lower(FormatWhatsapp(x.displayPhone)), term)
  }

  /** `items.filter(test)`. */
  function Keep(s: seq<Item>, t: Test, readDate: DateReader): seq<Item>
  {
    if s == [] then []
    else (if Passes(s[0], t, readDate) then [s[0]] else []) + Keep(s[1..], t, readDate)
  }

  predicate PassesAll(x: Item, ts: seq<Test>, readDate: DateReader)
  {
    forall i :: 0 <= i < |ts| ==> Passes(x, ts[i], readDate)
  }

  /** The items that pass every test, in their order. */
  function Select(s: seq<Item>, ts: seq<Test>, readDate: DateReader): seq<Item>
  {
    if s == [] then []
    else (if PassesAll(s[0], ts, readDate) then [s[0]] else []) + Select(s[1..], ts, readDate)
  }

  /** The test of one filter, when that filter is on. */
  function On(on: bool, t: Test): seq<Test>
  {
    if on then [t] else []
  }

  /** The tests of the filters that are on, in the order `applyFilters`
      runs them; the search term is lower-cased once. */
  function ActiveTests(f: Filters, readDate: DateReader): seq<Test>
  {
    On(f.campanha != "", CampaignIs(f.campanha))
    + On(f.status != "", StatusIs(f.status))
    + On(f.dataAgendada != "", ScheduledSince(readDate(f.dataAgendada)))
    + On(f.dataCriacao != "", CreatedSince(readDate(f.dataCriacao)))
    + On(f.template != "", TemplateIs(f.template))
    + On(f.busca != "", Search(Lower(f.busca)))
  }

  /** The list the page shows for these filters. */
  function Filtered(items: seq<Item>, f: Filters, readDate: DateReader): seq<Item>
  {
    Select(items, ActiveTests(f, readDate), readDate)
  }

  /** What it takes for an item to be shown: it passes the test of every
      filter that is on. */
  predicate Matches(x: Item, f: Filters, readDate: DateReader)
  {
    && (f.campanha != "" ==> Passes(x, CampaignIs(f.campanha), readDate))
    && (f.status != "" ==> Passes(x, StatusIs(f.status), readDate))
    && (f.dataAgendada != "" ==> Passes(x, ScheduledSince(readDate(f.dataAgendada)), readDate))
    && (f.dataCriacao != "" ==> Passes(x, CreatedSince(readDate(f.dataCriacao)), readDate))
    && (f.template != "" ==> Passes(x, TemplateIs(f.template), readDate))
    && (f.busca != "" ==> Passes(x, Search(Lower(f.busca)), readDate))
  }

  /** The tests of the filters that are on pass exactly when the item
      matches every filter. */
  lemma ActiveTestsMatch(x: Item, f: Filters, readDate: DateReader)
    ensures PassesAll(x, ActiveTests(f, readDate), readDate) <==> Matches(x, f, readDate)
  {
    PassesAllSix(x, On(f.campanha != "", CampaignIs(f.campanha)), On(f.status != "", StatusIs(f.status)),
                 On(f.dataAgendada != "", ScheduledSince(readDate(f.dataAgendada))),
                 On(f.dataCriacao != "", CreatedSince(readDate(f.dataCriacao))),
                 On(f.template != "", TemplateIs(f.template)), On(f.busca != "", Search(Lower(f.busca))),
                 readDate);
    OnTestsMatch(x, f, readDate);
  }

  lemma OnTestsMatch(x: Item, f: Filters, readDate: DateReader)
    ensures Matches(x, f, readDate) <==>
              && PassesAll(x, On(f.campanha != "", CampaignIs(f.campanha)), readDate)
              && PassesAll(x, On(f.status != "", StatusIs(f.status)), readDate)
              && PassesAll(x, On(f.dataAgendada != "", ScheduledSince(readDate(f.dataAgendada))), readDate)
              && PassesAll(x, On(f.dataCriacao != "", CreatedSince(readDate(f.dataCriacao))), readDate)
              && PassesAll(x, On(f.template != "", TemplateIs(f.template)), readDate)
              && PassesAll(x, On(f.busca != "", Search(Lower(f.busca))), readDate)
  {
    PassesOn(x, f.campanha != "", CampaignIs(f.campanha), readDate);
    PassesOn(x, f.status != "", StatusIs(f.status), readDate);
    PassesOn(x, f.dataAgendada != "", ScheduledSince(readDate(f.dataAgendada)), readDate);
    PassesOn(x, f.dataCriacao != "", CreatedSince(readDate(f.dataCriacao)), readDate);
    PassesOn(x, f.template != "", TemplateIs(f.template), readDate);
    PassesOn(x, f.busca != "", Search(Lower(f.busca)), readDate);
  }

  lemma PassesOn(x: Item, on: bool, t: Test, readDate: DateReader)
    ensures PassesAll(x, On(on, t), readDate) <==> (on ==> Passes(x, t, readDate))
  {
    if on {
      assert On(on, t)[0] == t;
    }
  }

  lemma PassesAllSix(x: Item, a: seq<Test>, b: seq<Test>, c: seq<Test>, d: seq<Test>, e: seq<Test>,
                     g: seq<Test>, readDate: DateReader)
    ensures PassesAll(x, a + b + c + d + e + g, readDate) <==>
              PassesAll(x, a, readDate) && PassesAll(x, b, readDate) && PassesAll(x, c, readDate)
              && PassesAll(x, d, readDate) && PassesAll(x, e, readDate) && PassesAll(x, g, readDate)
  {
    PassesAllConcat(x, a, b, readDate);
    PassesAllConcat(x, a + b, c, readDate);
    PassesAllConcat(x, a + b + c, d, readDate);
    PassesAllConcat(x, a + b + c + d, e, readDate);
    PassesAllConcat(x, a + b + c + d + e, g, readDate);
  }

  lemma PassesAllConcat(x: Item, ts: seq<Test>, us: seq<Test>, readDate: DateReader)
    ensures PassesAll(x, ts + us, readDate) <==> PassesAll(x, ts, readDate) && PassesAll(x, us, readDate)
  {
    if PassesAll(x, ts, readDate) && PassesAll(x, us, readDate) {
      forall i | 0 <= i < |ts + us|
        ensures Passes(x, (ts + us)[i], readDate)
      {
        if i >= |ts| {
          assert (ts + us)[i] == us[i - |ts|];
        } else {
          assert (ts + us)[i] == ts[i];
        }
      }
    }
    if PassesAll(x, ts + us, readDate) {
      forall i | 0 <= i < |ts|
        ensures Passes(x, ts[i], readDate)
      {
        assert (ts + us)[i] == ts[i];
      }
      forall i | 0 <= i < |us|
        ensures Passes(x, us[i], readDate)
      {
        assert (ts + us)[|ts| + i] == us[i];
      }
    }
  }

  /** Running one more filter over the selection selects by one more test. */
  lemma {:induction false} KeepSelect(s: seq<Item>, ts: seq<Test>, t: Test, readDate: DateReader)
    ensures Keep(Select(s, ts, readDate), t, readDate) == Select(s, ts + [t], readDate)
  {
    if s != [] {
      var rest := Select(s[1..], ts, readDate);
      var kept := Select(s[1..], ts + [t], readDate);
      var p := Passes(s[0], t, readDate);
      KeepSelect(s[1..], ts, t, readDate);
      PassesAllConcat(s[0], ts, [t], readDate);
      PassesOn(s[0], true, t, readDate);
      assert On(true, t) == [t];
      assert Select(s, ts + [t], readDate) == (if PassesAll(s[0], ts, readDate) && p then [s[0]] else []) + kept;
      if PassesAll(s[0], ts, readDate) {
        var r := [s[0]] + rest;
        assert r[0] == s[0] && r[1..] == rest;
        assert Keep(r, t, readDate) == (if p then [s[0]] else []) + Keep(rest, t, readDate);
      } else {
        assert Select(s, ts, readDate) == rest;
      }
    }
  }

  /** An item is shown exactly when it is in the list and passes every
      filter that is on. */
  lemma {:induction false} SelectMembers(s: seq<Item>, ts: seq<Test>, readDate: DateReader)
    ensures forall x :: x in Select(s, ts, readDate) <==> x in s && PassesAll(x, ts, readDate)
  {
    if s != [] {
      SelectMembers(s[1..], ts, readDate);
      assert s == [s[0]] + s[1..];
    }
  }

  lemma FilteredMembers(items: seq<Item>, f: Filters, readDate: DateReader, x: Item)
    ensures x in Filtered(items, f, readDate) <==> x in items && Matches(x, f, readDate)
  {
    SelectMembers(items, ActiveTests(f, readDate), readDate);
    ActiveTestsMatch(x, f, readDate);
  }

  /** `a` is what is left of `b` after leaving some of its elements out. */
  predicate SubsequenceOf(a: seq<Item>, b: seq<Item>)
    decreases |b|
  {
    if a == [] then true
    else if b == [] then false
    else if a[0] == b[0] then SubsequenceOf(a[1..], b[1..])
    else SubsequenceOf(a, b[1..])
  }

  /** An element in front of the longer sequence does not spoil a subsequence. */
  lemma {:induction false} SubsequenceCons(a: seq<Item>, x: Item, b: seq<Item>)
    requires SubsequenceOf(a, b)
    ensures SubsequenceOf(a, [x] + b)
    decreases |b|, 1
  {
    var xb := [x] + b;
    assert xb[1..] == b;
    if a != [] && a[0] == x {
      SubsequenceTail(a, b);
    }
  }

  /** Dropping the first element of a subsequence leaves a subsequence. */
  lemma {:induction false} SubsequenceTail(a: seq<Item>, b: seq<Item>)
    requires a != [] && SubsequenceOf(a, b)
    ensures SubsequenceOf(a[1..], b)
    decreases |b|, 0
  {
    if a[0] == b[0] {
      if a[1..] != [] {
        SubsequenceCons(a[1..], b[0], b[1..]);
        assert [b[0]] + b[1..] == b;
      }
    } else {
      SubsequenceTail(a, b[1..]);
      if a[1..] != [] {
        SubsequenceCons(a[1..], b[0], b[1..]);
        assert [b[0]] + b[1..] == b;
      }
    }
  }

  /** The shown items keep the order they have in the list. */
  lemma {:induction false} SelectSubsequence(s: seq<Item>, ts: seq<Test>, readDate: DateReader)
    ensures SubsequenceOf(Select(s, ts, readDate), s)
  {
    if s != [] {
      SelectSubsequence(s[1..], ts, readDate);
      var rest := Select(s[1..], ts, readDate);
      if PassesAll(s[0], ts, readDate) {
        var r := [s[0]] + rest;
        assert r[0] == s[0] && r[1..] == rest;
      } else {
        assert Select(s, ts, readDate) == rest;
        SubsequenceCons(rest, s[0], s[1..]);
        assert [s[0]] + s[1..] == s;
      }
    }
  }

  /** With every filter off the whole list is shown. */
  lemma {:induction false} SelectNoTests(s: seq<Item>, readDate: DateReader)
    ensures Select(s, [], readDate) == s
  {
    if s != [] {
      SelectNoTests(s[1..], readDate);
      assert s == [s[0]] + s[1..];
    }
  }

  /** The shown list is the list with the items failing a filter left out,
      in their order, and the whole list when every filter is off. */
  lemma FilteredSubsequence(items: seq<Item>, f: Filters, readDate: DateReader)
    ensures SubsequenceOf(Filtered(items, f, readDate), items)
    ensures f == NoFilters() ==> Filtered(items, f, readDate) == items
  {
    SelectSubsequence(items, ActiveTests(f, readDate), readDate);
    if f == NoFilters() {
      SelectNoTests(items, readDate);
    }
  }

  /** One `filtered = filtered.filter(test)` step of `applyFilters`,
      taken only when its filter is on. */
  method Narrow(items: seq<Item>, filtered: seq<Item>, ghost tests: seq<Test>, on: bool, t: Test,
                readDate: DateReader)
    returns (r: seq<Item>, ghost tests': seq<Test>)
    requires filtered == Select(items, tests, readDate)
    ensures tests' == tests + On(on, t)
    ensures r == Select(items, tests', readDate)
  {
    if on {
      KeepSelect(items, tests, t, readDate);
      r := Keep(filtered, t, readDate);
      tests' := tests + [t];
    } else {
      r := filtered;
      tests' := tests;
      assert tests + [] == tests;
    }
  }

  // ---------------------------------------------------------------- the page

  /** The page's list state: the records fetched, the filter inputs, and
      the list on screen. */
  class TrackingPage {
    var items: seq<Item>
    var filters: Filters
    var filteredItems: seq<Item>

    constructor ()
      ensures items == [] && filters == NoFilters() && filteredItems == []
    {
      items := [];
      filters := NoFilters();
      filteredItems := [];
    }

    /** `applyFilters`, run whenever the records or the filters change:
        one `filter` pass per filter that is on. */
    method ApplyFilters(readDate: DateReader)
      modifies this
      ensures items == old(items) && filters == old(filters)
      ensures filteredItems == Filtered(items, filters, readDate)
    {
      var f := filters;
      SelectNoTests(items, readDate);
      var filtered := items;
      ghost var tests: seq<Test> := [];
      filtered, tests := Narrow(items, filtered, tests, f.campanha != "", CampaignIs(f.campanha), readDate);
      assert tests == On(f.campanha != "", CampaignIs(f.campanha));
      filtered, tests := Narrow(items, filtered, tests, f.status != "", StatusIs(f.status), readDate);
      filtered, tests := Narrow(items, filtered, tests, f.dataAgendada != "",
                                ScheduledSince(readDate(f.dataAgendada)), readDate);
      filtered, tests := Narrow(items, filtered, tests, f.dataCriacao != "",
                                CreatedSince(readDate(f.dataCriacao)), readDate);
      filtered, tests := Narrow(items, filtered, tests, f.template != "", TemplateIs(f.template), readDate);
      filtered, tests := Narrow(items, filtered, tests, f.busca != "", Search(Lower(f.busca)), readDate);
      assert tests == ActiveTests(f, readDate);
      filteredItems := filtered;
    }

    /** `updateFilter`: one filter input changes, the others stay. */
    method UpdateFilter(k: FilterField, value: string)
      modifies this
      ensures filters == WithFilter(old(filters), k, value)
      ensures items == old(items) && filteredItems == old(filteredItems)
    {
      filters := WithFilter(filters, k, value);
    }

    /** `clearFilters`: every filter input emptied. */
    method ClearFilters()
      modifies this
      ensures filters == NoFilters()
      ensures items == old(items) && filteredItems == old(filteredItems)
    {
      filters := NoFilters();
    }
  }

  // ---------------------------------------------------------------- drop-down options

  datatype OptionField = CampaignOptions | StatusOptions | TemplateOptions | OtherOptions

  /** The value `getUniqueOptions` reads from an item, as the text the
      default `sort` compares, or `None` when the value is falsy (missing,
      empty, `null` or the number 0). */
  function OptionText(x: Item, k: OptionField): Option<string>
  {
    match k
    case CampaignOptions => if Truthy(x.nameBatch) then x.nameBatch else None
    case StatusOptions =>
      if x.sendStatus.Code? && x.sendStatus.n != 0 then Some(IntToString(x.sendStatus.n)) else None
    case TemplateOptions => if Truthy(x.template) then x.template else None
    case OtherOptions => None
  }

  /** `items.map(value).filter(Boolean)`. */
  function Candidates(items: seq<Item>, k: OptionField): seq<string>
  {
    if items == [] then []
    else
      var v := OptionText(items[0], k);
      (if v.Some? then [v.value] else []) + Candidates(items[1..], k)
  }

  predicate StrictlySorted(s: seq<string>)
  {
    forall i, j :: 0 <= i < j < |s| ==> Less(s[i], s[j])
  }

  /** Puts `v` into its place in a strictly sorted list, once. */
  function Insert(v: string, s: seq<string>): seq<string>
  {
    if s == [] then [v]
    else if v == s[0] then s
    else if Less(v, s[0]) then [v] + s
    else [s[0]] + Insert(v, s[1..])
  }

  /** `[...new Set(values)].sort()`. */
  function SortedSet(vs: seq<string>): seq<string>
  {
    if vs == [] then [] else Insert(vs[0], SortedSet(vs[1..]))
  }

  /** `getUniqueOptions(field)`. */
  function UniqueOptions(items: seq<Item>, k: OptionField): seq<string>
  {
    SortedSet(Candidates(items, k))
  }

  lemma {:induction false} InsertSorted(v: string, s: seq<string>)
    requires StrictlySorted(s)
    ensures StrictlySorted(Insert(v, s))
    ensures forall w :: w in Insert(v, s) <==> w == v || w in s
  {
    if s != [] && v != s[0] {
      if Less(v, s[0]) {
        forall j | 0 < j < |s|
          ensures Less(v, s[j])
        {
          LessTransitive(v, s[0], s[j]);
        }
        assert StrictlySorted([v] + s);
      } else {
        LessTotal(v, s[0]);
        InsertSorted(v, s[1..]);
        var r := Insert(v, s[1..]);
        forall w | w in r
          ensures Less(s[0], w)
        {
          if w != v {
            var j :| 1 <= j < |s| && s[j] == w;
          }
        }
        var t := [s[0]] + r;
        forall i, j | 0 <= i < j < |t|
          ensures Less(t[i], t[j])
        {
          if i > 0 {
            assert t[i] == r[i - 1] && t[j] == r[j - 1];
          } else {
            assert t[j] in r;
          }
        }
        assert s == [s[0]] + s[1..];
      }
    }
  }

  lemma {:induction false} SortedSetSorted(vs: seq<string>)
    ensures StrictlySorted(SortedSet(vs))
    ensures forall w :: w in SortedSet(vs) <==> w in vs
  {
    if vs != [] {
      SortedSetSorted(vs[1..]);
      InsertSorted(vs[0], SortedSet(vs[1..]));
      assert vs == [vs[0]] + vs[1..];
    }
  }

  lemma {:induction false} CandidatesMembers(items: seq<Item>, k: OptionField)
    ensures forall w :: w in Candidates(items, k) <==> exists x :: x in items && OptionText(x, k) == Some(w)
  {
    if items != [] {
      CandidatesMembers(items[1..], k);
      assert items == [items[0]] + items[1..];
      forall w | w in Candidates(items, k)
        ensures exists x :: x in items && OptionText(x, k) == Some(w)
      {
        if OptionText(items[0], k) != Some(w) {
          assert w in Candidates(items[1..], k);
        }
      }
    }
  }

  /** The options are in increasing order without repeats, and they are
      exactly the truthy values of the field. */
  lemma UniqueOptionsSpec(items: seq<Item>, k: OptionField)
    ensures StrictlySorted(UniqueOptions(items, k))
    ensures forall w :: w in UniqueOptions(items, k) <==> exists x :: x in items && OptionText(x, k) == Some(w)
  {
    SortedSetSorted(Candidates(items, k));
    CandidatesMembers(items, k);
  }

  /** Only one strictly sorted list holds a given set of texts: the options
      do not depend on how the sort goes about it. */
  lemma {:induction false} StrictlySortedUnique(a: seq<string>, b: seq<string>)
    requires StrictlySorted(a) && StrictlySorted(b)
    requires forall w :: w in a <==> w in b
    ensures a == b
    decreases |a|
  {
    if a != [] {
      assert a[0] in a;
      assert b[0] in b;
      if a[0] != b[0] {
        var i :| 0 <= i < |b| && b[i] == a[0];
        var j :| 0 <= j < |a| && a[j] == b[0];
        LessAsymmetric(a[0], b[0]);
        assert false;
      }
      TailMembers(a);
      TailMembers(b);
      StrictlySortedUnique(a[1..], b[1..]);
      assert a == [a[0]] + a[1..];
      assert b == [b[0]] + b[1..];
    } else if b != [] {
      HeadMember(b);
      assert false;
    }
  }

  lemma HeadMember(s: seq<string>)
    ensures s != [] ==> s[0] in s
  {
  }

  /** The rest of a strictly sorted list is everything but its first text. */
  lemma TailMembers(a: seq<string>)
    requires a != [] && StrictlySorted(a)
    ensures StrictlySorted(a[1..])
    ensures forall w :: w in a[1..] <==> w in a && w != a[0]
  {
    LessIrreflexive(a[0]);
    forall w | w in a && w != a[0]
      ensures w in a[1..]
    {
      var i :| 0 <= i < |a| && a[i] == w;
      assert a[1..][i - 1] == w;
    }
    forall w | w in a[1..]
      ensures w != a[0]
    {
      var i :| 0 <= i < |a[1..]| && a[1..][i] == w;
      assert Less(a[0], a[i + 1]);
    }
  }

  /** Status 0 is falsy, so "0" is never offered as a status option. */
  lemma ZeroStatusNotOffered(items: seq<Item>)
    ensures "0" !in UniqueOptions(items, StatusOptions)
  {
    UniqueOptionsSpec(items, StatusOptions);
    if "0" in UniqueOptions(items, StatusOptions) {
      var x :| x in items && OptionText(x, StatusOptions) == Some("0");
      assert IntToString(0) == "0";
      IntToStringInjective(x.sendStatus.n, 0);
    }
  }
}
