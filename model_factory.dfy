/** `get_model`: the command-line model name chosen by the user is dispatched to
    one of the backbones. The large IMPALA network takes its model size from the
    text after "impala_large:", read with Python's `int`, which is modelled here
    for base 10 as well. */
module ModelFactory {
  import opened Wrappers
  import Backbones

  // ----- Python `int(text)` in base 10 -----

  /** The characters `int` skips around a number: the six ASCII white space
      characters (space and tab to carriage return) and the non-ASCII white space
      of the Unicode database. The ASCII separators 0x1C to 0x1F are not among
      them, although `str.isspace` accepts them. */
  predicate IsSpace(c: char) {
    || c == ' ' || '\t' <= c <= '\r'
    || c == '\U{85}' || c == '\U{A0}' || c == '\U{1680}' || '\U{2000}' <= c <= '\U{200A}'
    || c == '\U{2028}' || c == '\U{2029}' || c == '\U{202F}' || c == '\U{205F}' || c == '\U{3000}'
  }

  predicate IsDigit(c: char) {
    '0' <= c <= '9'
  }

  predicate AllSpace(s: string) {
    forall i :: 0 <= i < |s| ==> IsSpace(s[i])
  }

  /** `s` without its leading white space. */
  function TrimLeft(s: string): (t: string)
    ensures |t| > 0 ==> !IsSpace(t[0])
  {
    if |s| > 0 && IsSpace(s[0]) then TrimLeft(s[1..]) else s
  }

  /** `s` without its trailing white space. */
  function TrimRight(s: string): (t: string)
    ensures |t| > 0 ==> !IsSpace(t[|t| - 1])
  {
    if |s| > 0 && IsSpace(s[|s| - 1]) then TrimRight(s[..|s| - 1]) else s
  }

  function Strip(s: string): string {
    TrimRight(TrimLeft(s))
  }

  /** The digit part of a base-10 literal: digits, where single underscores may
      separate two digits. */
  predicate WellFormedDigits(d: string) {
    && |d| > 0
    && d[0] != '_' && d[|d| - 1] != '_'
    && (forall i :: 0 <= i < |d| ==> IsDigit(d[i]) || d[i] == '_')
    && (forall i :: 0 <= i < |d| - 1 ==> d[i] == '_' ==> d[i + 1] != '_')
  }

  /** The value of a digit string, underscores skipped. */
  function DigitsValue(d: string): nat {
    if |d| == 0 then 0
    else if IsDigit(d[|d| - 1]) then DigitsValue(d[..|d| - 1]) * 10 + (d[|d| - 1] as int - '0' as int)
    else DigitsValue(d[..|d| - 1])
  }

  /** CPython's default limit on base-10 conversions (`sys.int_max_str_digits`):
      `int` refuses a literal of more digits with `ValueError`, and `str` refuses
      to write an integer of more digits. */
  const MaxStrDigits: nat := 4300

  /** The number of digits of a digit string; underscores do not count. */
  function DigitCount(d: string): nat {
    if |d| == 0 then 0
    else DigitCount(d[..|d| - 1]) + (if IsDigit(d[|d| - 1]) then 1 else 0)
  }

  /** A stripped literal: one optional sign, then a well-formed digit string of at
      most `MaxStrDigits` digits. */
  function ParseLiteral(t: string): Option<int> {
    var negative := |t| > 0 && t[0] == '-';
    var digits := if |t| > 0 && (t[0] == '-' || t[0] == '+') then t[1..] else t;
    if WellFormedDigits(digits) && DigitCount(digits) <= MaxStrDigits then
      var v: int := DigitsValue(digits);
      Some(if negative then -v else v)
    else None
  }

  /** `int(s)` in base 10: surrounding white space is skipped, one optional sign is
      read, and the rest must be a well-formed digit string within the digit
      limit; anything else raises
      `ValueError`, modelled as `None`. */
  function ParseInt(s: string): Option<int> {
    ParseLiteral(Strip(s))
  }

  function DigitChar(n: nat): (c: char)
    requires n < 10
    ensures IsDigit(c) && c as int - '0' as int == n
  {
    ('0' as int + n) as char
  }

  /** The decimal numeral of n, as Python's `str` writes it. */
  function NatString(n: nat): (s: string)
    ensures WellFormedDigits(s) && DigitsValue(s) == n
    ensures forall i :: 0 <= i < |s| ==> IsDigit(s[i])
    ensures DigitCount(s) == |s|
  {
    if n < 10 then [DigitChar(n)]
    else
      var prefix := NatString(n / 10);
      var s := prefix + [DigitChar(n % 10)];
      assert s[..|s| - 1] == prefix;
      s
  }

  /** `str(k)` for an integer k. */
  function DecimalString(k: int): string {
    if k < 0 then "-" + NatString(-k) else NatString(k)
  }

  /** `str(k)` stays within the digit limit, so that Python can write it. */
  predicate Printable(k: int) {
    |NatString(if k < 0 then -k else k)| <= MaxStrDigits
  }

  /** Whitespace-free text is its own stripped form. */
  lemma StripUnpadded(s: string)
    requires |s| > 0 && !IsSpace(s[0]) && !IsSpace(s[|s| - 1])
    ensures Strip(s) == s
  {
  }

  /** `int(str(k)) == k`: every integer that Python can print survives printing
      and parsing. */
  lemma ParseDecimalString(k: int)
    requires Printable(k)
    ensures ParseInt(DecimalString(k)) == Some(k)
  {
    var s := DecimalString(k);
    var n := if k < 0 then -k else k;
    var d := NatString(n);
    assert IsDigit(d[0]) && IsDigit(d[|d| - 1]);
    if k < 0 {
      assert s == "-" + d;
      assert s[1..] == d;
    }
    StripUnpadded(s);
  }

  /** A literal of more than `MaxStrDigits` digits raises `ValueError`, whatever
      its value. */
  lemma ParseIntDigitLimit(d: string)
    requires |d| > MaxStrDigits
    requires forall i :: 0 <= i < |d| ==> IsDigit(d[i])
    ensures ParseInt(d) == None
  {
    AllDigitsCount(d);
    StripUnpadded(d);
  }

  lemma {:induction false} AllDigitsCount(d: string)
    requires forall i :: 0 <= i < |d| ==> IsDigit(d[i])
    ensures DigitCount(d) == |d|
  {
    if |d| > 0 {
      AllDigitsCount(d[..|d| - 1]);
    }
  }

  /** White space before and after the text does not change what `int` reads. */
  lemma ParseIntPadded(before: string, s: string, after: string)
    requires AllSpace(before) && AllSpace(after)
    ensures ParseInt(before + s + after) == ParseInt(s)
  {
    StripPadded(before, s, after);
  }

  lemma {:induction false} TrimLeftSpace(before: string, s: string)
    requires AllSpace(before)
    ensures TrimLeft(before + s) == TrimLeft(s)
  {
    if |before| > 0 {
      assert IsSpace(before[0]) && (before + s)[0] == before[0];
      assert (before + s)[1..] == before[1..] + s;
      assert TrimLeft(before + s) == TrimLeft(before[1..] + s);
      assert AllSpace(before[1..]) by {
        forall i | 0 <= i < |before| - 1 ensures IsSpace(before[1..][i]) {
          assert before[1..][i] == before[i + 1];
        }
      }
      TrimLeftSpace(before[1..], s);
    } else {
      assert before + s == s;
    }
  }

  lemma {:induction false} TrimRightSpace(s: string, after: string)
    requires AllSpace(after)
    ensures TrimRight(s + after) == TrimRight(s)
  {
    if |after| > 0 {
      var n := |after| - 1;
      assert IsSpace(after[n]) && (s + after)[|s + after| - 1] == after[n];
      assert (s + after)[..|s + after| - 1] == s + after[..n];
      assert TrimRight(s + after) == TrimRight(s + after[..n]);
      assert AllSpace(after[..n]) by {
        forall i | 0 <= i < n ensures IsSpace(after[..n][i]) {
          assert after[..n][i] == after[i];
        }
      }
      TrimRightSpace(s, after[..n]);
    } else {
      assert s + after == s;
    }
  }

  /** Trimming the left of s + after, when after is all white space, either leaves
      nothing but white space or trims s alone. */
  lemma {:induction false} TrimLeftThenPad(s: string, after: string)
    requires AllSpace(after)
    ensures TrimLeft(s + after) == if AllSpace(s) then TrimLeft(after) else TrimLeft(s) + after
  {
    if |s| > 0 {
      assert (s + after)[0] == s[0];
      if IsSpace(s[0]) {
        assert (s + after)[1..] == s[1..] + after;
        TrimLeftThenPad(s[1..], after);
        if AllSpace(s[1..]) {
          assert AllSpace(s);
        } else {
          assert !AllSpace(s);
        }
      } else {
        assert !AllSpace(s);
      }
    } else {
      assert s + after == after;
    }
  }

  /** Text that is all white space strips to nothing. */
  lemma {:induction false} TrimLeftAllSpace(s: string)
    requires AllSpace(s)
    ensures TrimLeft(s) == []
  {
    if |s| > 0 {
      TrimLeftAllSpace(s[1..]);
    }
  }

  lemma StripPadded(before: string, s: string, after: string)
    requires AllSpace(before) && AllSpace(after)
    ensures Strip(before + s + after) == Strip(s)
  {
    assert before + s + after == before + (s + after);
    TrimLeftSpace(before, s + after);
    TrimLeftThenPad(s, after);
    if AllSpace(s) {
      TrimLeftAllSpace(after);
      TrimLeftAllSpace(s);
    } else {
      TrimRightSpace(TrimLeft(s), after);
    }
  }

  // ----- get_model -----

  /** What `get_model` hands back: a backbone class, with the large network's
      keyword arguments already bound. */
  datatype Backbone =
    | Nature
    | DuelingNature
    | ImpalaSmall
    | ImpalaLarge(modelSize: int, spectralNorm: Backbones.SpectralNormSetting)

  /** The result of a `get_model` call: a backbone, Python's `None` when no name
      matches, or the `ValueError` raised by `int` on a malformed model size. */
  datatype Outcome = Returned(backbone: Backbone) | ReturnedNone | RaisedValueError

  const LargePrefix: string := "impala_large:"

  predicate StartsWith(s: string, prefix: string) {
    |prefix| <= |s| && s[..|prefix|] == prefix
  }

  /** `get_model`: the three fixed names are compared in order, then the prefix of
      the large network, whose model size is the integer after the 13-character
      prefix; any other name falls through to `None`. */
  function GetModel(modelStr: string, spectralNorm: Backbones.SpectralNormSetting): (r: Outcome)
    ensures r == Returned(Nature) <==> modelStr == "nature"
    ensures r == Returned(DuelingNature) <==> modelStr == "dueling"
    ensures r == Returned(ImpalaSmall) <==> modelStr == "impala_small"
    ensures r.Returned? && r.backbone.ImpalaLarge? <==>
              StartsWith(modelStr, LargePrefix) && ParseInt(modelStr[|LargePrefix|..]).Some?
    ensures r.Returned? && r.backbone.ImpalaLarge? ==>
              && r.backbone.spectralNorm == spectralNorm
              && ParseInt(modelStr[|LargePrefix|..]) == Some(r.backbone.modelSize)
    ensures r.RaisedValueError? <==> StartsWith(modelStr, LargePrefix) && ParseInt(modelStr[|LargePrefix|..]).None?
    ensures r.ReturnedNone? <==>
              modelStr != "nature" && modelStr != "dueling" && modelStr != "impala_small"
              && !StartsWith(modelStr, LargePrefix)
  {
    if modelStr == "nature" then Returned(Nature)
    else if modelStr == "dueling" then Returned(DuelingNature)
    else if modelStr == "impala_small" then Returned(ImpalaSmall)
    else if StartsWith(modelStr, LargePrefix) then
      match ParseInt(modelStr[|LargePrefix|..])
      case None => RaisedValueError
      case Some(size) => Returned(ImpalaLarge(size, spectralNorm))
    else ReturnedNone
  }

  /** Every model size written after the prefix selects the large network of that
      size, with the given spectral norm setting. */
  lemma GetModelLarge(modelSize: int, spectralNorm: Backbones.SpectralNormSetting)
    requires Printable(modelSize)
    ensures GetModel(LargePrefix + DecimalString(modelSize), spectralNorm)
         == Returned(ImpalaLarge(modelSize, spectralNorm))
  {
    var s := LargePrefix + DecimalString(modelSize);
    assert s[..|LargePrefix|] == LargePrefix;
    assert s[|LargePrefix|..] == DecimalString(modelSize);
    ParseDecimalString(modelSize);
  }

  /** A model size of more than `MaxStrDigits` digits makes `int` raise, so
      `get_model` raises `ValueError` instead of returning a backbone. */
  lemma GetModelDigitLimit(d: string, spectralNorm: Backbones.SpectralNormSetting)
    requires |d| > MaxStrDigits
    requires forall i :: 0 <= i < |d| ==> IsDigit(d[i])
    ensures GetModel(LargePrefix + d, spectralNorm) == RaisedValueError
  {
    var s := LargePrefix + d;
    assert s[..|LargePrefix|] == LargePrefix;
    assert s[|LargePrefix|..] == d;
    ParseIntDigitLimit(d);
  }

  /** The shape-level network a returned backbone builds for `depth` input planes
      and `actions` outputs; `None` where construction raises: for a negative model
      size, where PyTorch refuses to create a layer of negative width, and for model
      size 0 when a residual block is spectrally normalised, because the spectral
      norm cannot reshape the empty weight of a convolution without channels. */
  function Instantiate(b: Backbone, depth: nat, actions: nat): (net: Option<Backbones.Network>)
    ensures net.None? <==> b.ImpalaLarge? && (b.modelSize < 0 || (b.modelSize == 0 && NormsSecondBlock(b.spectralNorm)))
  {
    match b
    case Nature => Some(Backbones.NatureCNN(depth, actions))
    case DuelingNature => Some(Backbones.DuelingNatureCNN(depth, actions))
    case ImpalaSmall => Some(Backbones.ImpalaCNNSmall(depth, actions))
    case ImpalaLarge(size, setting) =>
      if size < 0 || (size == 0 && Backbones.NormSelection(setting).1) then None
      else Some(Backbones.ImpalaCNNLarge(depth, actions, size, setting))
  }

  /** The settings that normalise a residual block: "last" and "all". */
  predicate NormsSecondBlock(setting: Backbones.SpectralNormSetting) {
    setting == Backbones.Name("last") || setting == Backbones.Name("all")
  }

  /** "impala_large:k" for k >= 1 builds a network that answers one value per
      action on every frame of at least 6x6 of its depth. For k = 0 construction
      raises under the settings "last" and "all"; under every other setting the
      network is built but its first convolution, which has no output channels,
      fails. */
  lemma GetModelLargeShape(modelSize: nat, spectralNorm: Backbones.SpectralNormSetting,
                           depth: nat, actions: nat, x: Backbones.Shape, advantagesOnly: bool)
    requires Printable(modelSize)
    requires |x| == 3 && x[0] == depth && x[1] >= 6 && x[2] >= 6
    ensures var r := GetModel(LargePrefix + DecimalString(modelSize), spectralNorm);
            && r.Returned?
            && (Instantiate(r.backbone, depth, actions).None? <==> modelSize == 0 && NormsSecondBlock(spectralNorm))
            && (Instantiate(r.backbone, depth, actions).Some? ==>
                  Backbones.Forward(Instantiate(r.backbone, depth, actions).value, x, advantagesOnly)
                  == if modelSize >= 1 then Some([actions]) else None)
  {
    GetModelLarge(modelSize, spectralNorm);
    Backbones.ImpalaCNNLargeShape(depth, actions, modelSize, spectralNorm, x, advantagesOnly);
  }
}
