/** The errors the sign-up controller reports in a bad-request response. */
module Errors {
  import opened Outcomes

  const MissimPrefix: string := "Missim Param: "
  const PasswordDontMatchMessage: string := "Password and PasswordConfirmation dont match"

  datatype ParamError =
    | MissimParamError(paramName: string)
    | InvalidParamError(paramName: string)
    | PasswordDontMatchError
  {
    /** The error's `name` property; None for InvalidParamError, whose class is not part of this model. */
    function Name(): (n: Option<string>)
      ensures MissimParamError? ==> n == Some("MissimParamError")
      ensures PasswordDontMatchError? ==> n == Some("PasswordDontMatchError")
      ensures n.None? <==> InvalidParamError?
    {
      match this
      case MissimParamError(_) => Some("MissimParamError")
      case InvalidParamError(_) => None
      case PasswordDontMatchError => Some("PasswordDontMatchError")
    }

    /** The error's `message`; None for InvalidParamError, as for Name. */
    function Message(): (m: Option<string>)
      ensures MissimParamError? ==>
        m.Some? && |MissimPrefix| <= |m.value| &&
        m.value[..|MissimPrefix|] == MissimPrefix && m.value[|MissimPrefix|..] == paramName
      ensures PasswordDontMatchError? ==> m == Some(PasswordDontMatchMessage)
      ensures m.None? <==> InvalidParamError?
    {
      match this
      case MissimParamError(p) => Some(MissimPrefix + p)
      case InvalidParamError(_) => None
      case PasswordDontMatchError => Some(PasswordDontMatchMessage)
    }
  }

  /** A message, where there is one, determines the error: in particular it names the missing field. */
  lemma MessageIdentifiesError(e1: ParamError, e2: ParamError)
    requires e1.Message().Some? && e1.Message() == e2.Message()
    ensures e1 == e2
  {
    var m := e1.Message().value;
    assert e1.MissimParamError? ==> m[0] == MissimPrefix[0];
    assert e2.MissimParamError? ==> m[0] == MissimPrefix[0];
  }
}
