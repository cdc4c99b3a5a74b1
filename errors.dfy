/**
 * The error kinds of engine/errors.go and the text their Error() methods produce.
 * A Go `error` that may be nil is an Option<Error>; `%v` of a nil error prints "<nil>".
 */
module Errors {
  import opened Wrappers
  import opened ConfigTypes

  /** ValidationError.Value (an interface{} in the source): the offending string or list. */
  datatype FieldValue =
    | TextValue(s: string)
    | LayersValue(layers: seq<LayerConfig>)
    | ComponentsValue(components: seq<ComponentConfig>)

  datatype Error =
    | ComponentError(kind: string, message: string, component: string, layer: string, cause: Option<Error>)
    | ConfigError(kind: string, message: string, field: string, cause: Option<Error>)
      /** The Timestamp of the source is not modelled. */
    | ExecutionError(kind: string, message: string, component: string, layer: string, cause: Option<Error>)
    | RetryExhaustedError(component: string, maxRetries: int, lastError: Option<Error>, retryErrors: seq<Error>)
    | CriticalComponentError(component: string, layer: string, cause: Option<Error>)
    | ValidationError(field: string, value: FieldValue, message: string)
      /** fmt.Errorf("<context>: %w", inner) */
    | Wrapped(context: string, inner: Error)
      /** An error made outside this package: errors.New, ctx.Err(), a component's own error. */
    | External(text: string)

  predicate HasPrefix(s: string, p: string) {
    |p| <= |s| && s[..|p|] == p
  }

  predicate HasSuffix(s: string, p: string) {
    |p| <= |s| && s[|s| - |p|..] == p
  }

  // ---------------------------------------------------------------------------
  // Decimal formatting, as `%d` does it

  function DigitChar(d: nat): (c: char)
    requires d < 10
    ensures '0' <= c <= '9' && c as int - '0' as int == d
  {
    ('0' as int + d) as char
  }

  predicate AllDigits(s: string) {
    forall i :: 0 <= i < |s| ==> '0' <= s[i] <= '9'
  }

  /** `%d` of a non-negative int: at least one digit, no leading zero. */
  function NatToString(n: nat): (s: string)
    ensures |s| >= 1 && AllDigits(s)
    ensures s[0] == '0' ==> n == 0
    decreases n
  {
    if n < 10 then [DigitChar(n)] else NatToString(n / 10) + [DigitChar(n % 10)]
  }

  /** The number a string of decimal digits denotes. */
  function DigitsValue(s: string): nat
    requires AllDigits(s)
  {
    if s == [] then 0 else DigitsValue(s[..|s| - 1]) * 10 + (s[|s| - 1] as int - '0' as int)
  }

  /** Reading back what `%d` printed gives the number again. */
  lemma {:induction false} NatToStringRoundTrip(n: nat)
    ensures DigitsValue(NatToString(n)) == n
  {
    if n >= 10 {
      NatToStringRoundTrip(n / 10);
      var s := NatToString(n);
      assert s[..|s| - 1] == NatToString(n / 10);
    }
  }

  /** `%d` of any int. */
  function IntToString(i: int): (s: string)
    ensures |s| >= 1 && (i < 0 <==> s[0] == '-')
  {
    if i < 0 then "-" + NatToString(-i) else NatToString(i)
  }

  // ---------------------------------------------------------------------------
  // Error() and Unwrap()

  /** `%v` of an error that may be nil. */
  function CauseText(cause: Option<Error>): string
    decreases cause
  {
    match cause
    case None => "<nil>"
    case Some(e) => Text(e)
  }

  /** (*ComponentError).Error() */
  function ComponentErrorText(component: string, message: string): string {
    if component != "" then "component error in " + component + ": " + message
    else "component error: " + message
  }

  /** (*ConfigError).Error() */
  function ConfigErrorText(field: string, message: string): string {
    if field != "" then "config error in field " + field + ": " + message
    else "config error: " + message
  }

  /** (*ExecutionError).Error(): the layer is shown only together with the component. */
  function ExecutionErrorText(component: string, layer: string, message: string): string {
    if component != "" && layer != "" then
      "execution error in layer " + layer + ", component " + component + ": " + message
    else if component != "" then "execution error in component " + component + ": " + message
    else "execution error: " + message
  }

  /** (*RetryExhaustedError).Error(): MaxRetries is reported as the number of attempts. */
  function RetryExhaustedText(component: string, maxRetries: int, lastErrorText: string): string {
    "retry exhausted for component " + component + " after " + IntToString(maxRetries) + " attempts: " + lastErrorText
  }

  /** (*CriticalComponentError).Error() */
  function CriticalComponentText(component: string, layer: string, causeText: string): string {
    "critical component " + component + " failed in layer " + layer + ": " + causeText
  }

  /** (*ValidationError).Error(): Value is not part of the text. */
  function ValidationErrorText(field: string, message: string): string {
    "validation error for field " + field + ": " + message
  }

  /** The string Error() returns, for every kind. */
  function Text(e: Error): string
    decreases e
  {
    match e
    case ComponentError(_, message, component, _, _) => ComponentErrorText(component, message)
    case ConfigError(_, message, field, _) => ConfigErrorText(field, message)
    case ExecutionError(_, message, component, layer, _) => ExecutionErrorText(component, layer, message)
    case RetryExhaustedError(component, maxRetries, lastError, _) =>
      RetryExhaustedText(component, maxRetries, CauseText(lastError))
    case CriticalComponentError(component, layer, cause) => CriticalComponentText(component, layer, CauseText(cause))
    case ValidationError(field, _, message) => ValidationErrorText(field, message)
    case Wrapped(context, inner) => context + ": " + Text(inner)
    case External(text) => text
  }

  /** What errors.Unwrap finds one level down; ValidationError and External have no Unwrap. */
  function Unwrap(e: Error): (r: Option<Error>)
    ensures (e.ComponentError? || e.ConfigError? || e.ExecutionError? || e.CriticalComponentError?) ==> r == e.cause
    ensures e.RetryExhaustedError? ==> r == e.lastError
    ensures e.Wrapped? ==> r == Some(e.inner)
    ensures (e.ValidationError? || e.External?) ==> r == None
  {
    match e
    case ComponentError(_, _, _, _, cause) => cause
    case ConfigError(_, _, _, cause) => cause
    case ExecutionError(_, _, _, _, cause) => cause
    case RetryExhaustedError(_, _, lastError, _) => lastError
    case CriticalComponentError(_, _, cause) => cause
    case ValidationError(_, _, _) => None
    case Wrapped(_, inner) => Some(inner)
    case External(_) => None
  }

  lemma ConcatKeepsPrefix(a: string, b: string, p: string)
    requires HasPrefix(a, p)
    ensures HasPrefix(a + b, p)
  {
    assert (a + b)[..|p|] == a[..|p|];
  }

  lemma ConcatEndsWith(a: string, b: string)
    ensures HasSuffix(a + b, b)
  {
    assert (a + b)[|a + b| - |b|..] == b;
  }

  /** ComponentError.Error() opens with "component error" and ends with Message. */
  lemma ComponentTextShape(e: Error)
    requires e.ComponentError?
    ensures HasPrefix(Text(e), "component error") && HasSuffix(Text(e), e.message)
  {
    var head := if e.component != "" then "component error in " + e.component + ": " else "component error: ";
    assert Text(e) == head + e.message;
    assert head == "component error" + head[15..];
    ConcatKeepsPrefix("component error", head[15..], "component error");
    ConcatKeepsPrefix(head, e.message, "component error");
    ConcatEndsWith(head, e.message);
  }

  /** ConfigError.Error() opens with "config error" and ends with Message. */
  lemma ConfigTextShape(e: Error)
    requires e.ConfigError?
    ensures HasPrefix(Text(e), "config error") && HasSuffix(Text(e), e.message)
  {
    var head := if e.field != "" then "config error in field " + e.field + ": " else "config error: ";
    assert Text(e) == head + e.message;
    assert head == "config error" + head[12..];
    ConcatKeepsPrefix("config error", head[12..], "config error");
    ConcatKeepsPrefix(head, e.message, "config error");
    ConcatEndsWith(head, e.message);
  }

  /** ExecutionError.Error() opens with "execution error" and ends with Message. */
  lemma ExecutionTextShape(e: Error)
    requires e.ExecutionError?
    ensures HasPrefix(Text(e), "execution error") && HasSuffix(Text(e), e.message)
  {
    var head :=
      if e.component != "" && e.layer != "" then "execution error in layer " + e.layer + ", component " + e.component + ": "
      else if e.component != "" then "execution error in component " + e.component + ": "
      else "execution error: ";
    assert Text(e) == head + e.message;
    assert head == "execution error" + head[15..];
    ConcatKeepsPrefix("execution error", head[15..], "execution error");
    ConcatKeepsPrefix(head, e.message, "execution error");
    ConcatEndsWith(head, e.message);
  }

  /** ValidationError.Error() opens with "validation error for field " and ends with Message. */
  lemma ValidationTextShape(e: Error)
    requires e.ValidationError?
    ensures HasPrefix(Text(e), "validation error for field ") && HasSuffix(Text(e), e.message)
  {
    var p := "validation error for field ";
    var head := p + e.field + ": ";
    assert Text(e) == head + e.message;
    assert head == p + (e.field + ": ");
    ConcatKeepsPrefix(p, e.field + ": ", p);
    ConcatKeepsPrefix(head, e.message, p);
    ConcatEndsWith(head, e.message);
  }

  /** RetryExhaustedError.Error() opens with "retry exhausted for component " and ends with
      the text of LastError ("<nil>" when there is none). */
  lemma RetryTextShape(e: Error)
    requires e.RetryExhaustedError?
    ensures HasPrefix(Text(e), "retry exhausted for component ")
    ensures HasSuffix(Text(e), CauseText(e.lastError))
  {
    var p := "retry exhausted for component ";
    var middle := e.component + " after " + IntToString(e.maxRetries) + " attempts: ";
    var rest := middle + CauseText(e.lastError);
    assert Text(e) == p + rest;
    assert p + rest == (p + middle) + CauseText(e.lastError);
    ConcatKeepsPrefix(p, rest, p);
    ConcatEndsWith(p + middle, CauseText(e.lastError));
  }

  /** CriticalComponentError.Error() opens with "critical component " and ends with the
      text of its cause ("<nil>" when there is none). */
  lemma CriticalTextShape(e: Error)
    requires e.CriticalComponentError?
    ensures HasPrefix(Text(e), "critical component ")
    ensures HasSuffix(Text(e), CauseText(e.cause))
  {
    var p := "critical component ";
    var middle := e.component + " failed in layer " + e.layer + ": ";
    var rest := middle + CauseText(e.cause);
    assert Text(e) == p + rest;
    assert p + rest == (p + middle) + CauseText(e.cause);
    ConcatKeepsPrefix(p, rest, p);
    ConcatEndsWith(p + middle, CauseText(e.cause));
  }

  lemma PrefixOfPrefix(s: string, p: string, q: string)
    requires HasPrefix(s, p) && HasPrefix(p, q)
    ensures HasPrefix(s, q)
  {
    assert s[..|q|] == p[..|q|];
  }

  /** Every typed error's text opens with the three letters of Lead. */
  lemma {:induction false} TextLead(e: Error)
    ensures HasPrefix(Text(e), Lead(e))
  {
    match e
    case ComponentError(_, _, _, _, _) => ComponentErrorLead(e);
    case ConfigError(_, _, _, _) => ConfigErrorLead(e);
    case ExecutionError(_, _, _, _, _) => ExecutionErrorLead(e);
    case RetryExhaustedError(_, _, _, _) => RetryExhaustedErrorLead(e);
    case CriticalComponentError(_, _, _) => CriticalComponentErrorLead(e);
    case ValidationError(_, _, _) => ValidationErrorLead(e);
    case Wrapped(_, _) =>
    case External(_) =>
  }

  lemma ComponentErrorLead(e: Error)
    requires e.ComponentError?
    ensures HasPrefix(Text(e), "com")
  {
    ComponentTextShape(e);
    PrefixOfPrefix(Text(e), "component error", "com");
  }

  lemma ConfigErrorLead(e: Error)
    requires e.ConfigError?
    ensures HasPrefix(Text(e), "con")
  {
    ConfigTextShape(e);
    PrefixOfPrefix(Text(e), "config error", "con");
  }

  lemma ExecutionErrorLead(e: Error)
    requires e.ExecutionError?
    ensures HasPrefix(Text(e), "exe")
  {
    ExecutionTextShape(e);
    PrefixOfPrefix(Text(e), "execution error", "exe");
  }

  lemma RetryExhaustedErrorLead(e: Error)
    requires e.RetryExhaustedError?
    ensures HasPrefix(Text(e), "ret")
  {
    RetryTextShape(e);
    PrefixOfPrefix(Text(e), "retry exhausted for component ", "ret");
  }

  lemma CriticalComponentErrorLead(e: Error)
    requires e.CriticalComponentError?
    ensures HasPrefix(Text(e), "cri")
  {
    CriticalTextShape(e);
    PrefixOfPrefix(Text(e), "critical component ", "cri");
  }

  lemma ValidationErrorLead(e: Error)
    requires e.ValidationError?
    ensures HasPrefix(Text(e), "val")
  {
    ValidationTextShape(e);
    PrefixOfPrefix(Text(e), "validation error for field ", "val");
  }

  function Lead(e: Error): string {
    match e
    case ComponentError(_, _, _, _, _) => "com"
    case ConfigError(_, _, _, _) => "con"
    case ExecutionError(_, _, _, _, _) => "exe"
    case RetryExhaustedError(_, _, _, _) => "ret"
    case CriticalComponentError(_, _, _) => "cri"
    case ValidationError(_, _, _) => "val"
    case Wrapped(_, _) => ""
    case External(_) => ""
  }

  /** ValidationError.Error() never shows Value. */
  lemma ValidationTextIgnoresValue(field: string, v1: FieldValue, v2: FieldValue, message: string)
    ensures Text(ValidationError(field, v1, message)) == Text(ValidationError(field, v2, message))
    ensures Text(ValidationError(field, v1, message)) == "validation error for field " + field + ": " + message
  {
  }

  /** An ExecutionError without a component never shows its layer. */
  lemma ExecutionTextNeedsComponentForLayer(kind: string, message: string, layer: string, cause: Option<Error>)
    ensures Text(ExecutionError(kind, message, "", layer, cause)) == "execution error: " + message
  {
  }

  // The exact texts pinned by engine/errors_test.go, one case per lemma.

  lemma ComponentTextExample()
    ensures Text(ComponentError("test_error", "test message", "test_component", "test_layer", None))
            == "component error in test_component: test message"
  {
  }

  lemma ComponentTextWithoutComponentExample()
    ensures Text(ComponentError("test_error", "test message", "", "", None)) == "component error: test message"
  {
  }

  lemma ConfigTextExample()
    ensures Text(ConfigError("validation_error", "invalid value", "test_field", None))
            == "config error in field test_field: invalid value"
  {
  }

  lemma ConfigTextWithoutFieldExample()
    ensures Text(ConfigError("validation_error", "invalid value", "", None)) == "config error: invalid value"
  {
  }

  lemma ExecutionTextExample()
    ensures Text(ExecutionError("runtime_error", "execution failed", "test_component", "test_layer", None))
            == "execution error in layer test_layer, component test_component: execution failed"
  {
    var e := ExecutionError("runtime_error", "execution failed", "test_component", "test_layer", None);
    assert Text(e) == ExecutionErrorText(e.component, e.layer, e.message);
    ExecutionTextLiteral();
  }

  lemma ExecutionTextLiteral()
    ensures ExecutionErrorText("test_component", "test_layer", "execution failed")
            == "execution error in layer test_layer, component test_component: execution failed"
  {
    assert |"test_component"| > 0 && |"test_layer"| > 0;
    var head := "execution error in layer " + "test_layer";
    assert head == "execution error in layer test_layer";
    var mid := head + ", component ";
    assert mid == "execution error in layer test_layer, component ";
    var comp := mid + "test_component";
    assert comp == "execution error in layer test_layer, component test_component";
    assert comp + ": " == "execution error in layer test_layer, component test_component: ";
    assert ExecutionErrorText("test_component", "test_layer", "execution failed") == comp + ": " + "execution failed";
  }

  lemma ExecutionTextWithoutComponentExample()
    ensures Text(ExecutionError("runtime_error", "execution failed", "", "", None)) == "execution error: execution failed"
  {
    var e := ExecutionError("runtime_error", "execution failed", "", "", None);
    assert Text(e) == ExecutionErrorText(e.component, e.layer, e.message);
  }

  lemma ValidationTextExample()
    ensures Text(ValidationError("test_field", TextValue("invalid_value"), "must be a valid format"))
            == "validation error for field test_field: must be a valid format"
  {
    var e := ValidationError("test_field", TextValue("invalid_value"), "must be a valid format");
    assert Text(e) == ValidationErrorText(e.field, e.message);
    ValidationTextLiteral();
  }

  lemma RetryTextExample()
    ensures Text(RetryExhaustedError("test_component", 3, Some(External("last error")), []))
            == "retry exhausted for component test_component after 3 attempts: last error"
  {
    var e := RetryExhaustedError("test_component", 3, Some(External("last error")), []);
    assert IntToString(3) == "3";
    assert Text(e) == RetryExhaustedText("test_component", 3, "last error");
    RetryTextLiteral();
  }

  lemma RetryTextLiteral()
    ensures RetryExhaustedText("test_component", 3, "last error")
            == "retry exhausted for component test_component after 3 attempts: last error"
  {
    assert IntToString(3) == "3";
    var head := "retry exhausted for component " + "test_component";
    assert head == "retry exhausted for component test_component";
    var mid := head + " after " + "3";
    assert mid == "retry exhausted for component test_component after 3";
    assert mid + " attempts: " == "retry exhausted for component test_component after 3 attempts: ";
  }

  lemma CriticalTextExample()
    ensures Text(CriticalComponentError("test_component", "test_layer", Some(External("test cause"))))
            == "critical component test_component failed in layer test_layer: test cause"
  {
    var e := CriticalComponentError("test_component", "test_layer", Some(External("test cause")));
    assert Text(e) == CriticalComponentText("test_component", "test_layer", "test cause");
    CriticalTextLiteral();
  }

  lemma CriticalTextLiteral()
    ensures CriticalComponentText("test_component", "test_layer", "test cause")
            == "critical component test_component failed in layer test_layer: test cause"
  {
    var head := "critical component " + "test_component";
    assert head == "critical component test_component";
    var mid := head + " failed in layer ";
    assert mid == "critical component test_component failed in layer ";
    var lay := mid + "test_layer";
    assert lay == "critical component test_component failed in layer test_layer";
    assert lay + ": " == "critical component test_component failed in layer test_layer: ";
  }

  lemma ValidationTextLiteral()
    ensures ValidationErrorText("test_field", "must be a valid format")
            == "validation error for field test_field: must be a valid format"
  {
  }
}
