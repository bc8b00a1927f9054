/**
 * FieldFormatter: the `name:argument` mini-language a model uses to say how a
 * stored value is displayed. `FormatSpec` and `OptionsSpec` specify the two
 * loops of the class; `Format` and `Options` are those loops.
 */
module FieldFormatter {
  import opened Wrappers
  import opened Php

  /** The static methods of the class that a spec can name. */
  datatype Formatter = IsEmptyF | BooleanF | StringF | DatetimeF | OptionsF | FormatF

  /** Date parsing and formatting (`new \DateTime($value)` then `->format`), left abstract. */
  type DateFormatter = (Value, string) -> Result<Value, Error>

  /** ASCII lower case: method names are looked up case-insensitively. */
  function LowerAscii(s: string): (r: string)
    ensures |r| == |s|
    ensures forall i | 0 <= i < |s| :: r[i] == if 'A' <= s[i] <= 'Z' then (s[i] as int + 32) as char else s[i]
  {
    seq(|s|, i requires 0 <= i < |s| => if 'A' <= s[i] <= 'Z' then (s[i] as int + 32) as char else s[i])
  }

  /** `method_exists(FieldFormatter, $name)`. */
  function Lookup(name: string): (f: Option<Formatter>)
    ensures f == Some(IsEmptyF) <==> LowerAscii(name) == "isempty"
    ensures f == Some(BooleanF) <==> LowerAscii(name) == "boolean"
    ensures f == Some(StringF) <==> LowerAscii(name) == "string"
    ensures f == Some(DatetimeF) <==> LowerAscii(name) == "datetime"
    ensures f == Some(OptionsF) <==> LowerAscii(name) == "options"
    ensures f == Some(FormatF) <==> LowerAscii(name) == "format"
    ensures f.None? <==> LowerAscii(name) !in {"isempty", "boolean", "string", "datetime", "options", "format"}
  {
    var n := LowerAscii(name);
    if n == "isempty" then Some(IsEmptyF)
    else if n == "boolean" then Some(BooleanF)
    else if n == "string" then Some(StringF)
    else if n == "datetime" then Some(DatetimeF)
    else if n == "options" then Some(OptionsF)
    else if n == "format" then Some(FormatF)
    else None
  }

  // ---------------------------------------------------------------------------
  // sprintf with one argument

  /** `sprintf($template, $arg)` for templates made of text, `%%` and `%s`.
      A second `%s` has no argument left; other conversions are not modelled. */
  function Sprintf(template: string, arg: Value): (r: Result<string, Error>)
    ensures '%' !in template ==> r == Success(template)
    ensures r.Failure? ==> '%' in template
  {
    if '%' !in template then
      SprintfPlain(template, arg, false);
      SprintfFrom(template, arg, false)
    else SprintfFrom(template, arg, false)
  }

  /** The rest of a template, `used` telling whether the argument was taken;
      only a conversion can fail. */
  function SprintfFrom(t: string, arg: Value, used: bool): (r: Result<string, Error>)
    ensures r.Failure? ==> '%' in t
    decreases |t|
  {
    if t == [] then Success("")
    else if t[0] != '%' then
      var rest :- SprintfFrom(t[1..], arg, used);
      Success([t[0]] + rest)
    else if |t| == 1 then Failure(MissingSpecifier)
    else if t[1] == '%' then
      var rest :- SprintfFrom(t[2..], arg, used);
      Success("%" + rest)
    else if t[1] == 's' then
      if used then Failure(TooFewArguments)
      else match ToText(arg)
        case None => Failure(NotStringable)
        case Some(text) =>
          var rest :- SprintfFrom(t[2..], arg, true);
          Success(text + rest)
    else Failure(UnsupportedSpecifier(t[1]))
  }

  /** Text without '%' comes out unchanged. */
  lemma {:induction false} SprintfPlain(t: string, arg: Value, used: bool)
    requires '%' !in t
    ensures SprintfFrom(t, arg, used) == Success(t)
    decreases |t|
  {
    if t != [] {
      assert t[0] in t;
      assert '%' !in t[1..];
      SprintfPlain(t[1..], arg, used);
      assert [t[0]] + t[1..] == t;
    }
  }

  /** A template with one `%s` puts the value's string form in its place. */
  lemma {:induction false} SprintfSubstitutes(pre: string, post: string, arg: Value)
    requires '%' !in pre && '%' !in post && ToText(arg).Some?
    ensures Sprintf(pre + "%s" + post, arg) == Success(pre + ToText(arg).value + post)
  {
    SubstituteFrom(pre, post, arg);
  }

  lemma {:induction false} SubstituteFrom(pre: string, post: string, arg: Value)
    requires '%' !in pre && '%' !in post && ToText(arg).Some?
    ensures SprintfFrom(pre + "%s" + post, arg, false) == Success(pre + ToText(arg).value + post)
    decreases |pre|
  {
    var t := pre + "%s" + post;
    if pre == [] {
      assert t == "%s" + post;
      SubstituteHere(post, arg);
      assert pre + ToText(arg).value + post == ToText(arg).value + post;
    } else {
      assert t[0] == pre[0] && pre[0] in pre;
      assert t[1..] == pre[1..] + "%s" + post;
      assert '%' !in pre[1..];
      SubstituteFrom(pre[1..], post, arg);
      assert [pre[0]] + (pre[1..] + ToText(arg).value + post) == pre + ToText(arg).value + post;
    }
  }

  lemma SubstituteHere(post: string, arg: Value)
    requires '%' !in post && ToText(arg).Some?
    ensures SprintfFrom("%s" + post, arg, false) == Success(ToText(arg).value + post)
  {
    var t := "%s" + post;
    assert t[0] == '%' && t[1] == 's' && t[2..] == post;
    SprintfPlain(post, arg, true);
  }

  /** A template with two `%s` needs a second argument. */
  lemma {:induction false} SprintfTwoArguments(a: string, b: string, arg: Value)
    requires '%' !in a && '%' !in b && ToText(arg).Some?
    ensures Sprintf(a + "%s" + b + "%s", arg) == Failure(TooFewArguments)
  {
    TwoFrom(a, b, arg);
  }

  lemma {:induction false} TwoFrom(a: string, b: string, arg: Value)
    requires '%' !in a && '%' !in b && ToText(arg).Some?
    ensures SprintfFrom(a + "%s" + b + "%s", arg, false) == Failure(TooFewArguments)
    decreases |a|
  {
    var t := a + "%s" + b + "%s";
    if a == [] {
      assert t[2..] == b + "%s";
      SecondFails(b, arg);
    } else {
      assert t[0] == a[0] && a[0] in a;
      assert t[1..] == a[1..] + "%s" + b + "%s";
      assert '%' !in a[1..];
      TwoFrom(a[1..], b, arg);
    }
  }

  lemma {:induction false} SecondFails(b: string, arg: Value)
    requires '%' !in b
    ensures SprintfFrom(b + "%s", arg, true) == Failure(TooFewArguments)
    decreases |b|
  {
    var t := b + "%s";
    if b != [] {
      assert t[0] == b[0] && b[0] in b;
      assert t[1..] == b[1..] + "%s";
      assert '%' !in b[1..];
      SecondFails(b[1..], arg);
    }
  }

  // ---------------------------------------------------------------------------
  // The formatters

  /** `boolean($value, $options)`: the second of two '|'-separated labels for a
      truthy value, the first for a falsy one; 'No'/'Yes' unless there are exactly two. */
  function Boolean(value: Value, options: string): (r: string)
    ensures r in Split(options, '|') || r == "Yes" || r == "No"
  {
    var labels := Split(options, '|');
    if |labels| == 2 then labels[if Truthy(value) then 1 else 0]
    else if Truthy(value) then "Yes" else "No"
  }

  /** Explode on a delimiter that occurs once gives the two sides. */
  lemma SplitPair(a: string, b: string, c: char)
    requires c !in a && c !in b
    ensures Split(a + [c] + b, c) == [a, b]
  {
    var s := a + [c] + b;
    assert s[|a|] == c;
    var i := FirstIndex(s, c);
    assert s[..|a|] == a;
    if i < |a| {
      assert false;
    } else if i > |a| {
      assert false;
    }
    assert s[i + 1..] == b;
    assert s[..i] == a;
  }

  /** Two labels without '|' are chosen by the truthiness of the value. */
  lemma BooleanLabels(value: Value, no: string, yes: string)
    requires '|' !in no && '|' !in yes
    ensures Boolean(value, no + "|" + yes) == if Truthy(value) then yes else no
  {
    SplitPair(no, yes, '|');
  }

  /** More or fewer than two labels fall back to 'No'/'Yes'. */
  lemma BooleanDefault(value: Value, options: string)
    requires |Split(options, '|')| != 2
    ensures Boolean(value, options) == if Truthy(value) then "Yes" else "No"
  {
  }

  /** `string($value, $format)`: sprintf with the template, '%s' when none is given. */
  function StringFormat(value: Value, format: Option<string>): (r: Result<string, Error>)
    ensures format.Some? && '%' !in format.value ==> r == Success(format.value)
    ensures format.None? ==> (r.Failure? <==> ToText(value).None?)
  {
    Sprintf(format.GetOr("%s"), value)
  }

  /** Without a template, `string` is the value's string form. */
  lemma StringDefaultIsText(value: Value)
    requires ToText(value).Some?
    ensures StringFormat(value, None) == Success(ToText(value).value)
  {
    SprintfSubstitutes("", "", value);
    assert "" + "%s" + "" == "%s";
    assert "" + ToText(value).value + "" == ToText(value).value;
  }

  /** `datetime($value, $format)`: null for an empty value, else the date formatter. */
  function Datetime(value: Value, format: string, dates: DateFormatter): (r: Result<Value, Error>)
    ensures !Truthy(value) ==> r == Success(Null)
  {
    if !Truthy(value) then Success(Null) else dates(value, format)
  }

  /** The key and caption of one `k.v` option; the caption is null without a '.'. */
  function OptionKey(option: string): ArrayKey {
    KeyOfString(Split(option, '.')[0])
  }

  function OptionLabel(option: string): Value {
    var t := Split(option, '.');
    if |t| >= 2 then Str(t[1]) else Null
  }

  /** The table `options` builds: options applied left to right, so a later
      duplicate key overrides an earlier one. */
  function OptionsTable(options: seq<string>): map<ArrayKey, Value>
    decreases |options|
  {
    if options == [] then map[]
    else
      var last := options[|options| - 1];
      OptionsTable(options[..|options| - 1])[OptionKey(last) := OptionLabel(last)]
  }

  /** `options($value, $format)`: the caption for the value, or 'undefined'. */
  function OptionsSpec(value: Value, format: string): (r: Result<Value, Error>)
    ensures r.Failure? <==> value.Arr? || value.Obj?
    ensures r.Success? ==> r.value != Null
  {
    var table := OptionsTable(Split(format, '|'));
    match KeyOf(value)
    case None => Failure(IllegalOffset)
    case Some(k) => if k in table && table[k] != Null then Success(table[k]) else Success(Str("undefined"))
  }

  /** The last option for a key decides its caption. */
  lemma OptionsLastWins(options: seq<string>, key: string, caption: string)
    requires '.' !in key && '.' !in caption
    ensures var table := OptionsTable(options + [key + "." + caption]);
            KeyOfString(key) in table && table[KeyOfString(key)] == Str(caption)
  {
    var o := key + "." + caption;
    SplitPair(key, caption, '.');
    assert (options + [o])[..|options|] == options;
  }

  /** An option for another key leaves a caption where it was. */
  lemma OptionsOtherKey(options: seq<string>, option: string, k: ArrayKey)
    requires OptionKey(option) != k
    ensures k in OptionsTable(options + [option]) <==> k in OptionsTable(options)
    ensures k in OptionsTable(options) ==> OptionsTable(options + [option])[k] == OptionsTable(options)[k]
  {
    assert (options + [option])[..|options|] == options;
  }

  /** `options`: build the table in a foreach, then look the value up. */
  method Options(value: Value, format: string) returns (r: Result<Value, Error>)
    ensures r == OptionsSpec(value, format)
  {
    var options := Split(format, '|');
    var result: map<ArrayKey, Value> := map[];
    var i := 0;
    while i < |options|
      invariant 0 <= i <= |options|
      invariant result == OptionsTable(options[..i])
    {
      var transform := Split(options[i], '.');
      var caption := if |transform| >= 2 then Str(transform[1]) else Null;
      assert options[..i + 1][..i] == options[..i];
      result := result[KeyOfString(transform[0]) := caption];
      i := i + 1;
    }
    assert options[..i] == options;
    match KeyOf(value)
    case None => r := Failure(IllegalOffset);
    case Some(k) =>
      if k in result && result[k] != Null {
        r := Success(result[k]);
      } else {
        r := Success(Str("undefined"));
      }
  }

  /** `isEmpty($value, $options)`: the `boolean` caption for "set and not ''",
      with the value substituted into it. */
  function IsEmpty(value: Value, options: string): (r: Result<string, Error>)
    ensures '%' !in options ==> r.Success? && (r.value in Split(options, '|') || r.value == "Yes" || r.value == "No")
  {
    var valueSet := value != Null && !LooseEquals(value, Str(""));
    var caption := Boolean(Bool(valueSet), options);
    if '%' !in options then
      LabelHasNoPercent(caption, options);
      Sprintf(caption, value)
    else Sprintf(caption, value)
  }

  /** A caption cut out of options without '%' holds no '%'. */
  lemma LabelHasNoPercent(caption: string, options: string)
    requires '%' !in options
    requires caption in Split(options, '|') || caption == "Yes" || caption == "No"
    ensures '%' !in caption
  {
    if caption in Split(options, '|') {
      SplitPartsWithin(options, '|');
      var k :| 0 <= k < |Split(options, '|')| && Split(options, '|')[k] == caption;
    }
  }

  /** With two plain labels, null and every value loosely equal to '' (such as
      '', false, or an object whose __toString gives '') get the first label;
      any other value gets the second. */
  lemma IsEmptyLabels(value: Value, emptyLabel: string, setLabel: string)
    requires '|' !in emptyLabel && '|' !in setLabel && '%' !in emptyLabel && '%' !in setLabel
    ensures IsEmpty(value, emptyLabel + "|" + setLabel)
            == Success(if value == Null || LooseEquals(value, Str("")) then emptyLabel else setLabel)
  {
    BooleanLabels(Bool(value != Null && !LooseEquals(value, Str(""))), emptyLabel, setLabel);
    SprintfPlain(emptyLabel, value, false);
    SprintfPlain(setLabel, value, false);
  }

  // ---------------------------------------------------------------------------
  // format

  /** `self::$method($value, $argument)` for a formatter the name resolved to. */
  function Dispatch(f: Formatter, value: Value, argument: string, dates: DateFormatter): (r: Result<Value, Error>)
    ensures f == BooleanF ==> r.Success? && r.value.Str?
    ensures f == StringF && '%' !in argument ==> r == Success(Str(argument))
    ensures f == DatetimeF && !Truthy(value) ==> r == Success(Null)
    ensures f == OptionsF ==> (r.Failure? <==> value.Arr? || value.Obj?)
    ensures f == FormatF ==> r == Failure(TooFewArguments)
  {
    match f
    case IsEmptyF =>
      var s :- IsEmpty(value, argument);
      Success(Str(s))
    case BooleanF => Success(Str(Boolean(value, argument)))
    case StringF =>
      var s :- StringFormat(value, Some(argument));
      Success(Str(s))
    case DatetimeF => Datetime(value, argument, dates)
    case OptionsF => OptionsSpec(value, argument)
    case FormatF => Failure(TooFewArguments)  // format() itself takes three arguments
  }

  /** `FieldFormatter::format($key, $value, $formats)`: the first spec with a
      ':' whose key is `key` decides; its name picks the formatter and the rest,
      re-joined, is the argument. A name that is no formatter stops the search. */
  function FormatSpec(key: string, value: Value, formats: seq<(string, string)>, dates: DateFormatter)
    : (r: Result<Value, Error>)
    ensures r.Failure? ==> exists i | 0 <= i < |formats| :: Applies(formats[i], key)
    decreases |formats|
  {
    if formats == [] then Success(value)
    else
      var parts := Split(formats[0].1, ':');
      if |parts| == 1 || formats[0].0 != key then FormatSpec(key, value, formats[1..], dates)
      else match Lookup(parts[0])
        case None => Success(value)
        case Some(f) => Dispatch(f, value, Join(parts[1..], ':'), dates)
  }

  /** A spec applies to `key` when it is keyed by it and holds a ':'. */
  predicate Applies(entry: (string, string), key: string) {
    entry.0 == key && ':' in entry.1
  }

  /** With no applicable spec the value comes back unchanged. */
  lemma {:induction false} FormatNoMatch(key: string, value: Value, formats: seq<(string, string)>, dates: DateFormatter)
    requires forall i | 0 <= i < |formats| :: !Applies(formats[i], key)
    ensures FormatSpec(key, value, formats, dates) == Success(value)
    decreases |formats|
  {
    if formats != [] {
      assert !Applies(formats[0], key);
      FormatNoMatch(key, value, formats[1..], dates);
    }
  }

  /** The first applicable spec `name:rest` runs the formatter `name` on the
      whole of `rest`, colons included, whatever follows it in the table. */
  lemma {:induction false} FormatFirstApplicable(key: string, value: Value, before: seq<(string, string)>,
                                                 name: string, rest: string, after: seq<(string, string)>,
                                                 dates: DateFormatter)
    requires forall i | 0 <= i < |before| :: !Applies(before[i], key)
    requires ':' !in name
    ensures FormatSpec(key, value, before + [(key, name + ":" + rest)] + after, dates)
            == match Lookup(name)
               case None => Success(value)
               case Some(f) => Dispatch(f, value, rest, dates)
    decreases |before|
  {
    var formats := before + [(key, name + ":" + rest)] + after;
    if before == [] {
      var spec := name + ":" + rest;
      assert spec == name + [':'] + rest;
      assert spec[|name|] == ':';
      var i := FirstIndex(spec, ':');
      assert spec[..|name|] == name;
      if i < |name| {
        assert false;
      } else if i > |name| {
        assert false;
      }
      SplitHead(spec, ':');
      assert spec[i + 1..] == rest;
    } else {
      assert !Applies(before[0], key);
      assert formats[1..] == before[1..] + [(key, name + ":" + rest)] + after;
      FormatFirstApplicable(key, value, before[1..], name, rest, after, dates);
    }
  }

  /** The search loop of `format`, with its early return and its break. */
  method Format(key: string, value: Value, formats: seq<(string, string)>, dates: DateFormatter)
    returns (r: Result<Value, Error>)
    ensures r == FormatSpec(key, value, formats, dates)
  {
    var i := 0;
    while i < |formats|
      invariant 0 <= i <= |formats|
      invariant FormatSpec(key, value, formats, dates) == FormatSpec(key, value, formats[i..], dates)
    {
      assert formats[i..][1..] == formats[i + 1..];
      var parts := Split(formats[i].1, ':');
      if |parts| == 1 {
        i := i + 1;
        continue;
      }
      if formats[i].0 == key {
        var f := Lookup(parts[0]);
        if f.Some? {
          if f.value == OptionsF {
            r := Options(value, Join(parts[1..], ':'));
          } else {
            r := Dispatch(f.value, value, Join(parts[1..], ':'), dates);
          }
          return;
        }
        break;
      }
      i := i + 1;
    }
    r := Success(value);
  }
}
