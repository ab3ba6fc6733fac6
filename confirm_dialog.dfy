/**
 * The state machine of `ConfirmDialogProvider` (`confirm-dialog.tsx`): the
 * dialog's options, the internal loading flag, whether it is open, and the
 * resolver of the promise the last `confirm` returned.
 *
 * A promise is a token; resolving it appends a settlement to a log, so that
 * "settled with true", "settled with false" and "never settled" can be told
 * apart. Calls of the caller-supplied `setIsLoading` are logged the same way.
 * What `onConfirm` does is an input to `HandleConfirm` (an `Outcome`).
 */
module ConfirmDialog {
  import opened Wrappers

  /** A function value: its declared parameter count (`Function.length`) and an identity. */
  datatype Callback = Callback(arity: nat, id: nat)

  /** The values an option can hold, as far as the provider looks at them. */
  datatype Value =
    | Undefined
    | Null
    | Bool(b: bool)
    | Str(s: string)
    | Props(id: nat)         // a props object or a React node other than a string
    | Func(f: Callback)

  /** `ConfirmOptions`: the keys the object has, with their values (a key may be present and undefined). */
  type Options = map<string, Value>

  /** A promise returned by `confirm` settled with a value. */
  datatype Settlement = Settlement(token: nat, value: bool)

  /** What calling `onConfirm` did: returned a value, returned a promise that resolved or rejected, or threw. */
  datatype Outcome = Returned(v: Value) | Resolved(v: Value) | Rejected | Threw

  /** Either an options object to merge over the current one, or a function of the current one. */
  datatype ConfigUpdate = Merge(patch: Options) | Apply(f: Options -> Options)

  /** JavaScript truthiness of a value. */
  predicate Truthy(v: Value) {
    match v
    case Undefined => false
    case Null => false
    case Bool(b) => b
    case Str(s) => s != ""
    case Props(_) => true
    case Func(_) => true
  }

  /** `options[key]`, undefined when the key is absent. */
  function Get(options: Options, key: string): (v: Value)
    ensures key !in options ==> v == Undefined
  {
    if key in options then options[key] else Undefined
  }

  /** `{ ...a, ...b }`: every key of `b` overrides `a`, even when its value is undefined. */
  function Spread(a: Options, b: Options): (r: Options)
    ensures r.Keys == a.Keys + b.Keys
    ensures forall k :: k in b ==> r[k] == b[k]
    ensures forall k :: k in a && k !in b ==> r[k] == a[k]
  {
    a + b
  }

  const BaseDefaultOptions: Options := map[
    "alertDialogContent" := Props(0),
    "alertDialogDescription" := Props(0),
    "alertDialogFooter" := Props(0),
    "alertDialogHeader" := Props(0),
    "alertDialogTitle" := Props(0),
    "cancelButton" := Props(0),
    "cancelText" := Str("Cancel"),
    "confirmButton" := Props(0),
    "confirmText" := Str("Confirm"),
    "description" := Str(""),
    "title" := Str("")
  ]

  /** The options `confirm` installs: the base defaults, overridden by the provider's defaults, overridden by the call's options. */
  function ConfirmConfig(defaultOptions: Options, options: Options): Options {
    Spread(Spread(BaseDefaultOptions, defaultOptions), options)
  }

  /** The precedence of the three layers of `ConfirmConfig`, key by key. */
  lemma ConfirmConfigPrecedence(defaultOptions: Options, options: Options, key: string)
    ensures key in options ==> Get(ConfirmConfig(defaultOptions, options), key) == options[key]
    ensures key !in options && key in defaultOptions ==>
      Get(ConfirmConfig(defaultOptions, options), key) == defaultOptions[key]
    ensures key !in options && key !in defaultOptions ==>
      Get(ConfirmConfig(defaultOptions, options), key) == Get(BaseDefaultOptions, key)
  {
  }

  /** With no options of its own, a dialog shows "Confirm" and "Cancel" unless the provider's defaults say otherwise. */
  lemma DefaultButtonTexts(defaultOptions: Options)
    requires "confirmText" !in defaultOptions && "cancelText" !in defaultOptions
    ensures Get(ConfirmConfig(defaultOptions, map[]), "confirmText") == Str("Confirm")
    ensures Get(ConfirmConfig(defaultOptions, map[]), "cancelText") == Str("Cancel")
  {
  }

  /** `effectiveIsLoading`: the options' `isLoading` when it is not undefined, the internal flag otherwise. */
  function EffectiveIsLoading(config: Options, isLoading: bool): (r: bool)
    ensures Get(config, "isLoading") == Undefined ==> r == isLoading
    ensures Get(config, "isLoading").Bool? ==> r == Get(config, "isLoading").b
  {
    var external := Get(config, "isLoading");
    if external == Undefined then isLoading else Truthy(external)
  }

  /** The external flag wins whatever the internal one says; the internal one counts only without it. */
  lemma ExternalLoadingPrecedence(config: Options, internal1: bool, internal2: bool)
    ensures Get(config, "isLoading") != Undefined ==>
      EffectiveIsLoading(config, internal1) == EffectiveIsLoading(config, internal2)
    ensures Get(config, "isLoading") == Undefined ==>
      (EffectiveIsLoading(config, internal1) == EffectiveIsLoading(config, internal2) <==> internal1 == internal2)
  {
  }

  /**
   * `shouldClose` after `onConfirm`: true without `onConfirm`; a returned
   * boolean decides; any other returned value keeps true; a resolved promise
   * decides by its value's truthiness; a throw or a rejection is an error (`None`).
   */
  function ShouldClose(onConfirm: Value, outcome: Outcome): (r: Option<bool>)
    ensures !Truthy(onConfirm) ==> r == Some(true)
    ensures Truthy(onConfirm) && (outcome.Threw? || outcome.Rejected?) ==> r == None
    ensures Truthy(onConfirm) && outcome.Returned? && outcome.v.Bool? ==> r == Some(outcome.v.b)
    ensures Truthy(onConfirm) && outcome.Returned? && !outcome.v.Bool? ==> r == Some(true)
    ensures Truthy(onConfirm) && outcome.Resolved? ==> r == Some(Truthy(outcome.v))
  {
    if !Truthy(onConfirm) then Some(true)
    else match outcome
      case Returned(v) => if v.Bool? then Some(v.b) else Some(true)
      case Resolved(v) => Some(Truthy(v))
      case Rejected => None
      case Threw => None
  }

  /** A promise whose `onConfirm` resolves to undefined does not close the dialog, unlike a synchronous void return. */
  lemma VoidPromiseKeepsOpen(onConfirm: Value)
    requires Truthy(onConfirm)
    ensures ShouldClose(onConfirm, Resolved(Undefined)) == Some(false)
    ensures ShouldClose(onConfirm, Returned(Undefined)) == Some(true)
  {
  }

  /** `isLegacyCustomActions`: a custom-actions function taking exactly two parameters. */
  predicate IsLegacyCustomActions(f: Callback) {
    f.arity == 2
  }

  /** How the dialog's actions are rendered. */
  datatype ActionsKind = DefaultButtons | LegacyActions | EnhancedActions

  /**
   * The dispatch of `renderActions`: the default buttons without custom
   * actions, the legacy call `customActions(onConfirm, onCancel)` for a
   * two-parameter function, and the props-object call for any other.
   * A truthy `customActions` is taken to be a function, as its declared type
   * says. For other truthy values the code differs: a value whose `length`
   * is 2 (a two-character string) takes the legacy branch, and any call on a
   * non-function throws, where the model reads both as the props-object call.
   */
  function ActionsKindOf(customActions: Value): (r: ActionsKind)
    ensures r == DefaultButtons <==> !Truthy(customActions)
    ensures r == LegacyActions <==> customActions.Func? && customActions.f.arity == 2
    ensures r == EnhancedActions <==> Truthy(customActions) && !(customActions.Func? && customActions.f.arity == 2)
  {
    if !Truthy(customActions) then DefaultButtons
    else if customActions.Func? && IsLegacyCustomActions(customActions.f) then LegacyActions
    else EnhancedActions
  }

  /**
   * The `try` block of `handleConfirm` up to the close decision: `shouldClose`
   * starts true and is overridden by what `onConfirm` gives; `failed` marks the
   * `catch` path.
   */
  method TryOnConfirm(onConfirm: Value, outcome: Outcome) returns (shouldClose: bool, failed: bool)
    ensures failed <==> ShouldClose(onConfirm, outcome) == None
    ensures !failed ==> ShouldClose(onConfirm, outcome) == Some(shouldClose)
  {
    shouldClose := true;
    failed := false;
    if Truthy(onConfirm) {
      match outcome
      case Resolved(v) => shouldClose := Truthy(v);
      case Returned(v) =>
        if v.Bool? {
          shouldClose := v.b;
        }
      case Rejected => failed := true;
      case Threw => failed := true;
    }
  }

  /** The tokens of the settled promises. */
  function SettledTokens(settled: seq<Settlement>): (r: set<nat>)
    ensures forall i :: 0 <= i < |settled| ==> settled[i].token in r
    ensures forall t :: t in r ==> exists i :: 0 <= i < |settled| && settled[i].token == t
  {
    set i | 0 <= i < |settled| :: settled[i].token
  }

  class ConfirmDialogProvider {
    const defaultOptions: Options
    var config: Options
    var isLoading: bool
    var isOpen: bool
    var resolver: Option<nat>
    /** The promises settled so far, in order. */
    var settled: seq<Settlement>
    /** The calls of the options' `setIsLoading`, in order. */
    var externalLoading: seq<bool>
    /** The token the next `confirm` hands out. */
    var nextToken: nat

    /**
     * The dialog is open exactly while a promise is pending; the pending
     * promise has been handed out and not settled; no promise is settled twice.
     */
    ghost predicate Valid()
      reads this
    {
      && (isOpen <==> resolver.Some?)
      && (resolver.Some? ==> resolver.value < nextToken && resolver.value !in SettledTokens(settled))
      && (forall i :: 0 <= i < |settled| ==> settled[i].token < nextToken)
      && (forall i, j :: 0 <= i < j < |settled| ==> settled[i].token != settled[j].token)
    }

    constructor(defaultOptions: Options)
      ensures Valid()
      ensures this.defaultOptions == defaultOptions
      ensures config == BaseDefaultOptions && !isLoading && !isOpen && resolver == None
      ensures settled == [] && externalLoading == []
    {
      this.defaultOptions := defaultOptions;
      config := BaseDefaultOptions;
      isLoading := false;
      isOpen := false;
      resolver := None;
      settled := [];
      externalLoading := [];
      nextToken := 0;
    }

    /**
     * `confirm(options)`: open with the merged options, not loading, and a new
     * pending promise; a still-pending earlier promise is dropped unsettled.
     */
    method Confirm(options: Options) returns (promise: nat)
      requires Valid()
      modifies this
      ensures Valid()
      ensures config == ConfirmConfig(defaultOptions, options)
      ensures !isLoading && isOpen && resolver == Some(promise)
      ensures promise == old(nextToken) && promise !in SettledTokens(settled)
      ensures settled == old(settled) && externalLoading == old(externalLoading)
    {
      config := Spread(Spread(BaseDefaultOptions, defaultOptions), options);
      isLoading := false;
      isOpen := true;
      promise := nextToken;
      nextToken := nextToken + 1;
      resolver := Some(promise);
    }

    /** `updateConfig`: merge an object over the options, or replace them by a function of them; nothing else changes. */
    method UpdateConfig(update: ConfigUpdate)
      requires Valid()
      modifies this
      ensures Valid()
      ensures update.Merge? ==> config == Spread(old(config), update.patch)
      ensures update.Apply? ==> config == update.f(old(config))
      ensures isLoading == old(isLoading) && isOpen == old(isOpen) && resolver == old(resolver)
      ensures settled == old(settled) && externalLoading == old(externalLoading)
    {
      match update
      case Merge(patch) => config := Spread(config, patch);
      case Apply(f) => config := f(config);
    }

    /** Settle the pending promise, if any, with `value`, and clear it. */
    method Settle(value: bool)
      requires Valid()
      modifies this
      ensures resolver == None
      ensures old(resolver).Some? ==> settled == old(settled) + [Settlement(old(resolver).value, value)]
      ensures old(resolver).None? ==> settled == old(settled)
      ensures config == old(config) && isLoading == old(isLoading) && isOpen == old(isOpen)
      ensures externalLoading == old(externalLoading) && nextToken == old(nextToken)
      ensures forall i :: 0 <= i < |settled| ==> settled[i].token < nextToken
      ensures forall i, j :: 0 <= i < j < |settled| ==> settled[i].token != settled[j].token
    {
      if resolver.Some? {
        settled := settled + [Settlement(resolver.value, value)];
      }
      resolver := None;
    }

    /** Turn loading off after a failed or declined confirmation: internally, or through `setIsLoading`. */
    method StopLoading()
      modifies this
      ensures Get(config, "isLoading") == Undefined ==> !isLoading && externalLoading == old(externalLoading)
      ensures Get(config, "isLoading") != Undefined ==> isLoading == old(isLoading)
      ensures Get(config, "isLoading") != Undefined && Truthy(Get(config, "setIsLoading")) ==>
        externalLoading == old(externalLoading) + [false]
      ensures Get(config, "isLoading") != Undefined && !Truthy(Get(config, "setIsLoading")) ==>
        externalLoading == old(externalLoading)
      ensures config == old(config) && isOpen == old(isOpen) && resolver == old(resolver)
      ensures settled == old(settled) && nextToken == old(nextToken)
    {
      if Get(config, "isLoading") == Undefined {
        isLoading := false;
      } else if Truthy(Get(config, "setIsLoading")) {
        externalLoading := externalLoading + [false];
      }
    }

    /** Turn loading on before running `onConfirm`: internally, or through `setIsLoading`. */
    method StartLoading()
      modifies this
      ensures Get(config, "isLoading") == Undefined ==> isLoading && externalLoading == old(externalLoading)
      ensures Get(config, "isLoading") != Undefined ==> isLoading == old(isLoading)
      ensures Get(config, "isLoading") != Undefined && Truthy(Get(config, "setIsLoading")) ==>
        externalLoading == old(externalLoading) + [true]
      ensures Get(config, "isLoading") != Undefined && !Truthy(Get(config, "setIsLoading")) ==>
        externalLoading == old(externalLoading)
      ensures config == old(config) && isOpen == old(isOpen) && resolver == old(resolver)
      ensures settled == old(settled) && nextToken == old(nextToken)
    {
      if Get(config, "isLoading") == Undefined {
        isLoading := true;
      } else if Truthy(Get(config, "setIsLoading")) {
        externalLoading := externalLoading + [true];
      }
    }

    /**
     * The closing branch of `handleConfirm`: settle the pending promise with
     * true, close, stop loading, and call `setIsLoading(false)` when given.
     */
    method CloseConfirmed()
      requires Valid()
      modifies this
      ensures Valid()
      ensures !isOpen && !isLoading && resolver == None
      ensures settled == old(settled) + (if old(resolver).Some? then [Settlement(old(resolver).value, true)] else [])
      ensures Truthy(Get(config, "setIsLoading")) ==> externalLoading == old(externalLoading) + [false]
      ensures !Truthy(Get(config, "setIsLoading")) ==> externalLoading == old(externalLoading)
      ensures config == old(config) && nextToken == old(nextToken)
    {
      Settle(true);
      isLoading := false;
      isOpen := false;
      if Truthy(Get(config, "setIsLoading")) {
        externalLoading := externalLoading + [false];
      }
    }

    /**
     * `handleConfirm`, with what `onConfirm` did. Loading is turned on
     * (internally when the options leave `isLoading` undefined, else through
     * `setIsLoading`). If the dialog should close, the pending promise settles
     * with true and the dialog closes, not loading; if not, or on an error, the
     * dialog stays open with its promise pending, and loading is turned off.
     */
    method HandleConfirm(outcome: Outcome)
      requires Valid()
      modifies this
      ensures Valid()
      ensures config == old(config) && nextToken == old(nextToken)
      ensures ShouldClose(Get(config, "onConfirm"), outcome) == Some(true) ==>
        && !isOpen && !isLoading && resolver == None
        && settled == old(settled) + (if old(resolver).Some? then [Settlement(old(resolver).value, true)] else [])
      ensures ShouldClose(Get(config, "onConfirm"), outcome) != Some(true) ==>
        && isOpen == old(isOpen) && resolver == old(resolver) && settled == old(settled)
        && (Get(config, "isLoading") == Undefined ==> !isLoading)
        && (Get(config, "isLoading") != Undefined ==> isLoading == old(isLoading))
      ensures ShouldClose(Get(config, "onConfirm"), outcome) == Some(true) ==>
        externalLoading == old(externalLoading)
          + (if Get(config, "isLoading") != Undefined && Truthy(Get(config, "setIsLoading")) then [true] else [])
          + (if Truthy(Get(config, "setIsLoading")) then [false] else [])
      ensures ShouldClose(Get(config, "onConfirm"), outcome) != Some(true) ==>
        externalLoading == old(externalLoading)
          + (if Get(config, "isLoading") != Undefined && Truthy(Get(config, "setIsLoading")) then [true, false] else [])
    {
      StartLoading();
      var shouldClose, failed := TryOnConfirm(Get(config, "onConfirm"), outcome);
      if !failed && shouldClose {
        CloseConfirmed();
      } else {
        StopLoading();
      }
    }

    /** `handleCancel`: nothing while loading; otherwise settle the pending promise with false and close. */
    method HandleCancel()
      requires Valid()
      modifies this
      ensures Valid()
      ensures EffectiveIsLoading(old(config), old(isLoading)) ==>
        && isOpen == old(isOpen) && resolver == old(resolver) && settled == old(settled)
      ensures !EffectiveIsLoading(old(config), old(isLoading)) ==>
        && !isOpen && resolver == None
        && settled == old(settled) + (if old(resolver).Some? then [Settlement(old(resolver).value, false)] else [])
      ensures config == old(config) && isLoading == old(isLoading)
      ensures externalLoading == old(externalLoading) && nextToken == old(nextToken)
    {
      if EffectiveIsLoading(config, isLoading) {
        return;
      }
      Settle(false);
      isOpen := false;
    }

    /** `handleOpenChange(open)`: a request to close cancels unless loading; a request to open does nothing. */
    method HandleOpenChange(open: bool)
      requires Valid()
      modifies this
      ensures Valid()
      ensures (open || EffectiveIsLoading(old(config), old(isLoading))) ==>
        && isOpen == old(isOpen) && resolver == old(resolver) && settled == old(settled)
      ensures !open && !EffectiveIsLoading(old(config), old(isLoading)) ==>
        && !isOpen && resolver == None
        && settled == old(settled) + (if old(resolver).Some? then [Settlement(old(resolver).value, false)] else [])
      ensures config == old(config) && isLoading == old(isLoading)
      ensures externalLoading == old(externalLoading) && nextToken == old(nextToken)
    {
      if !open && !EffectiveIsLoading(config, isLoading) {
        HandleCancel();
      }
    }
  }

  /**
   * A promise handed out by `confirm` and then cancelled (not loading) settles
   * with false; confirmed instead (closing), it settles with true.
   */
  method ConfirmThenCancel(p: ConfirmDialogProvider, options: Options) returns (promise: nat)
    requires p.Valid()
    requires Get(ConfirmConfig(p.defaultOptions, options), "isLoading") == Undefined
    modifies p
    ensures p.Valid() && !p.isOpen
    ensures p.settled == old(p.settled) + [Settlement(promise, false)]
  {
    promise := p.Confirm(options);
    p.HandleCancel();
  }

  /** Confirming with no `onConfirm` closes the dialog and settles the promise with true. */
  method ConfirmThenAccept(p: ConfirmDialogProvider, options: Options) returns (promise: nat)
    requires p.Valid()
    requires !Truthy(Get(ConfirmConfig(p.defaultOptions, options), "onConfirm"))
    modifies p
    ensures p.Valid() && !p.isOpen && !p.isLoading
    ensures p.settled == old(p.settled) + [Settlement(promise, true)]
  {
    promise := p.Confirm(options);
    p.HandleConfirm(Returned(Undefined));
  }

  /** A second `confirm` while the first is pending leaves the first promise unsettled for good. */
  method ConfirmTwice(p: ConfirmDialogProvider, first: Options, second: Options) returns (p1: nat, p2: nat)
    requires p.Valid()
    modifies p
    ensures p.Valid() && p1 != p2
    ensures p.resolver == Some(p2) && p1 !in SettledTokens(p.settled)
    ensures p.settled == old(p.settled)
  {
    p1 := p.Confirm(first);
    p2 := p.Confirm(second);
  }
}
