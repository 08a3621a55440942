/**
 * createAPIHelpers: the convenience wrappers around APIService.get,
 * APIService.request and APIService.delete. The callbacks a caller may pass
 * (setState, showToast, setLoading) and console.error are recorded, in call
 * order, in the fields of a Callbacks object; whether a callback was passed
 * at all is a flag. The request's own settlement is ApiService.Respond of the
 * transport's outcome.
 */
module ApiHelpers {
  import opened JsText
  import opened ApiErrors
  import opened ApiService

  /** showToast(kind, title, message) */
  datatype Toast = Toast(kind: string, title: string, message: string)

  /** `entityName || 'data'`: a missing or empty entity name reads as "data". */
  function EntityLabel(entityName: Option<string>): string
  {
    if entityName.Some? && entityName.value != "" then entityName.value else "data"
  }

  function LoadFailure(entityName: Option<string>): Toast
  {
    Toast("error", "Load Error", "Failed to load " + EntityLabel(entityName) + ".")
  }

  /** The action word of the submit helpers; unlike getActionVerb it compares the method as given. */
  function SubmitAction(httpMethod: string): string
  {
    if httpMethod == "POST" then "create"
    else if httpMethod == "PUT" || httpMethod == "PATCH" then "update"
    else "process"
  }

  function SubmitFailure(httpMethod: string, entityName: Option<string>): Toast
  {
    Toast("error", "Error", "Failed to " + SubmitAction(httpMethod) + " " + EntityLabel(entityName) + ".")
  }

  function DeleteFailure(entityName: Option<string>): Toast
  {
    Toast("error", "Error", "Failed to delete " + EntityLabel(entityName) + ".")
  }

  /**
   * The submit helpers' action word is "create" exactly for "POST", "update"
   * exactly for "PUT" and "PATCH", and "process" otherwise; on those three
   * upper-case methods it agrees with getActionVerb.
   */
  lemma SubmitActionCases(httpMethod: string)
    ensures SubmitAction(httpMethod) == "create" <==> httpMethod == "POST"
    ensures SubmitAction(httpMethod) == "update" <==> httpMethod == "PUT" || httpMethod == "PATCH"
    ensures SubmitAction(httpMethod) == "process" <==> httpMethod !in {"POST", "PUT", "PATCH"}
    ensures httpMethod in {"POST", "PUT", "PATCH"} ==> SubmitAction(httpMethod) == ActionVerb(httpMethod)
  {
    if httpMethod in {"POST", "PUT", "PATCH"} {
      assert ToUpper(httpMethod) == httpMethod;
    }
  }

  /** A lower-case method is sent upper-cased, yet the submit helpers' toast calls it "process". */
  lemma LowerCasePostDisagrees(httpMethod: string)
    requires httpMethod == "post"
    ensures ActionVerb(httpMethod) == "create"
    ensures SubmitAction(httpMethod) == "process"
  {
    assert ToUpper(httpMethod) == "POST";
  }

  /** Every failure toast names the entity, or "data" when none was given. */
  lemma ToastNamesEntity(entityName: Option<string>)
    ensures entityName.Some? && entityName.value != "" ==> EntityLabel(entityName) == entityName.value
    ensures entityName.None? || entityName.value == "" ==> EntityLabel(entityName) == "data"
    ensures EntityLabel(entityName) != ""
  {
  }

  /** What the wrappers' callbacks and console have been given so far. */
  class Callbacks {
    var stateWrites: seq<Value>
    var toasts: seq<Toast>
    var consoleErrors: seq<string>
    var loadingCalls: seq<bool>

    constructor ()
      ensures stateWrites == [] && toasts == [] && consoleErrors == [] && loadingCalls == []
    {
      stateWrites := [];
      toasts := [];
      consoleErrors := [];
      loadingCalls := [];
    }

    /** fetchData: never rejects; a failure resolves with null after a toast or a console error. */
    method FetchData(outcome: Outcome, hasSetState: bool, hasToast: bool, entityName: Option<string>)
      returns (data: Value)
      modifies this
      ensures data == (if Respond(outcome).Fulfilled? then Respond(outcome).value else NullValue)
      ensures stateWrites == old(stateWrites) + (if Respond(outcome).Fulfilled? && hasSetState then [data] else [])
      ensures toasts == old(toasts) + (if Respond(outcome).Rejected? && hasToast then [LoadFailure(entityName)] else [])
      ensures consoleErrors == old(consoleErrors)
                               + (if Respond(outcome).Rejected? && !hasToast then [Respond(outcome).message] else [])
      ensures loadingCalls == old(loadingCalls)
    {
      var settled := Respond(outcome);
      match settled {
        case Fulfilled(v) =>
          if hasSetState {
            stateWrites := stateWrites + [v];
          }
          data := v;
        case Rejected(message) =>
          if hasToast {
            toasts := toasts + [LoadFailure(entityName)];
          } else {
            consoleErrors := consoleErrors + [message];
          }
          data := NullValue;
      }
    }

    /** submitData: resolves as the request does; a failure is announced by a toast when one is given, then rethrown. */
    method SubmitData(httpMethod: string, outcome: Outcome, hasToast: bool, entityName: Option<string>)
      returns (result: Settled)
      modifies this
      ensures result == Respond(outcome)
      ensures toasts == old(toasts) + (if result.Rejected? && hasToast then [SubmitFailure(httpMethod, entityName)] else [])
      ensures stateWrites == old(stateWrites) && consoleErrors == old(consoleErrors) && loadingCalls == old(loadingCalls)
    {
      result := Respond(outcome);
      if result.Rejected? && hasToast {
        toasts := toasts + [SubmitFailure(httpMethod, entityName)];
      }
    }

    /** deleteData: true on success, false after a toast or a console error; never rejects. */
    method DeleteData(outcome: Outcome, hasToast: bool, entityName: Option<string>)
      returns (ok: bool)
      modifies this
      ensures ok <==> Respond(outcome).Fulfilled?
      ensures toasts == old(toasts) + (if !ok && hasToast then [DeleteFailure(entityName)] else [])
      ensures consoleErrors == old(consoleErrors) + (if !ok && !hasToast then [Respond(outcome).message] else [])
      ensures stateWrites == old(stateWrites) && loadingCalls == old(loadingCalls)
    {
      var settled := Respond(outcome);
      ok := settled.Fulfilled?;
      if !ok {
        if hasToast {
          toasts := toasts + [DeleteFailure(entityName)];
        } else {
          consoleErrors := consoleErrors + [settled.message];
        }
      }
    }

    /** fetchDataWithLoading: fetchData between setLoading(true) and, in `finally`, setLoading(false). */
    method FetchDataWithLoading(outcome: Outcome, hasSetState: bool, hasToast: bool, entityName: Option<string>,
                                hasSetLoading: bool)
      returns (data: Value)
      modifies this
      ensures data == (if Respond(outcome).Fulfilled? then Respond(outcome).value else NullValue)
      ensures stateWrites == old(stateWrites) + (if Respond(outcome).Fulfilled? && hasSetState then [data] else [])
      ensures toasts == old(toasts) + (if Respond(outcome).Rejected? && hasToast then [LoadFailure(entityName)] else [])
      ensures consoleErrors == old(consoleErrors)
                               + (if Respond(outcome).Rejected? && !hasToast then [Respond(outcome).message] else [])
      ensures loadingCalls == old(loadingCalls) + (if hasSetLoading then [true, false] else [])
    {
      if hasSetLoading {
        loadingCalls := loadingCalls + [true];
      }
      data := FetchData(outcome, hasSetState, hasToast, entityName);
      if hasSetLoading {
        loadingCalls := loadingCalls + [false];
      }
    }

    /** submitDataWithLoading: submitData between setLoading(true) and, in `finally`, setLoading(false). */
    method SubmitDataWithLoading(httpMethod: string, outcome: Outcome, hasToast: bool, entityName: Option<string>,
                                 hasSetLoading: bool)
      returns (result: Settled)
      modifies this
      ensures result == Respond(outcome)
      ensures toasts == old(toasts) + (if result.Rejected? && hasToast then [SubmitFailure(httpMethod, entityName)] else [])
      ensures loadingCalls == old(loadingCalls) + (if hasSetLoading then [true, false] else [])
      ensures stateWrites == old(stateWrites) && consoleErrors == old(consoleErrors)
    {
      if hasSetLoading {
        loadingCalls := loadingCalls + [true];
      }
      result := SubmitData(httpMethod, outcome, hasToast, entityName);
      if hasSetLoading {
        loadingCalls := loadingCalls + [false];
      }
    }
  }
}
