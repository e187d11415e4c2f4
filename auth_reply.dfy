/**
 * How the sign-in pages (src/pages/settings/user/register.jsx and login.jsx)
 * read the account SDK's answer. A resolved reply that carries both a code
 * and an error is rethrown as `{code, message: error}`; a thrown value is
 * read through `err.code || err.status` and `err.message || err.error || d`.
 * Falsy fields (absent, `0`, `''`) are written as `0` and `""`.
 */
module AuthReply {
  import opened Wrappers

  /** The SDK call: it resolved with `res`, or it rejected with `err`. */
  datatype Outcome =
    | Resolved(resCode: int, resError: string)
    | Rejected(err: Thrown)

  /** The fields of a thrown value that the pages read. */
  datatype Thrown = Thrown(code: int, status: int, message: string, error: string)

  /** The value the `catch` block sees, or `None` when the call counts as a success. */
  function Settle(o: Outcome): (r: Option<Thrown>)
    ensures o.Resolved? ==> (r.Some? <==> o.resCode != 0 && o.resError != "")
    ensures o.Resolved? && r.Some? ==> r.value.code == o.resCode && r.value.message == o.resError
    ensures o.Rejected? ==> r == Some(o.err)
  {
    match o
    case Resolved(code, error) =>
      if code != 0 && error != "" then Some(Thrown(code, 0, error, "")) else None
    case Rejected(t) => Some(t)
  }

  /** `err.code || err.status`. */
  function ErrorCode(t: Thrown): int {
    if t.code != 0 then t.code else t.status
  }

  /** `err.message || err.error || fallback`. */
  function ErrorText(t: Thrown, fallback: string): (r: string)
    ensures t.message != "" ==> r == t.message
    ensures t.message == "" && t.error != "" ==> r == t.error
    ensures t.message == "" && t.error == "" ==> r == fallback
  {
    if t.message != "" then t.message else if t.error != "" then t.error else fallback
  }

  /** A rethrown reply shows the SDK's error text, never the fallback. */
  lemma RethrownShowsSdkError(code: int, error: string, fallback: string)
    requires code != 0 && error != ""
    ensures var t := Settle(Resolved(code, error));
      t.Some? && ErrorCode(t.value) == code && ErrorText(t.value, fallback) == error
  {
  }
}
