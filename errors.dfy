/**
 * The exception classes of the gem loader and the messages they carry
 * (lib/zeitwerk/error.rb).
 */
module Errors {
  import opened Wrappers
  import opened Strings

  /** The classes involved, with Ruby's StandardError and ::NameError on top. */
  datatype ErrorClass =
    | StandardError
    | NameError               // Ruby's ::NameError
    | ArgumentError           // Ruby's ::ArgumentError
    | Error                   // Zeitwerk::Error
    | ReloadingDisabledError
    | ZeitwerkNameError       // Zeitwerk::NameError
    | LibNotFound
    | NamespaceNotFound

  /** The direct superclass; the classes above StandardError are not modelled. */
  function Superclass(c: ErrorClass): Option<ErrorClass> {
    match c
    case StandardError => None
    case NameError => Some(StandardError)
    case ArgumentError => Some(StandardError)
    case Error => Some(StandardError)
    case ReloadingDisabledError => Some(Error)
    case ZeitwerkNameError => Some(NameError)
    case LibNotFound => Some(Error)
    case NamespaceNotFound => Some(Error)
  }

  function Depth(c: ErrorClass): nat {
    match c
    case StandardError => 0
    case NameError => 1
    case ArgumentError => 1
    case Error => 1
    case _ => 2
  }

  /** Ruby's `c <= d`: `c` is `d` or inherits from it. */
  predicate IsA(c: ErrorClass, d: ErrorClass)
    decreases Depth(c)
  {
    c == d || (Superclass(c).Some? && IsA(Superclass(c).value, d))
  }

  /** The Zeitwerk exceptions this core raises, with their payloads. */
  datatype ZeitwerkError =
    | ReloadingDisabledErr
    | LibNotFoundErr(entryPoint: string)
    | NamespaceNotFoundErr(namespace: string)

  /**
   * What a ::NameError raised by a constant lookup reports about itself. A
   * NameError raised by hand has no receiver, and asking it for one raises
   * ArgumentError.
   */
  datatype NameErrorInfo = NameErrorInfo(receiver: Option<nat>, name: string)

  /**
   * Anything the gem loader lets escape: its own errors, a ::NameError passed
   * through, or the ArgumentError of asking a receiverless NameError for its
   * receiver.
   */
  datatype Raised = Zeitwerk(error: ZeitwerkError) | NameErr(info: NameErrorInfo) | NoReceiverErr

  function ClassOf(e: ZeitwerkError): ErrorClass {
    match e
    case ReloadingDisabledErr => ReloadingDisabledError
    case LibNotFoundErr(_) => LibNotFound
    case NamespaceNotFoundErr(_) => NamespaceNotFound
  }

  function ClassOfRaised(r: Raised): ErrorClass {
    match r
    case Zeitwerk(e) => ClassOf(e)
    case NameErr(_) => NameError
    case NoReceiverErr => ArgumentError
  }

  /** Every error the gem loader raises itself is a proper subclass of Zeitwerk::Error. */
  lemma ZeitwerkErrorsAreErrors(e: ZeitwerkError)
    ensures IsA(ClassOf(e), Error) && ClassOf(e) != Error
    ensures !IsA(ClassOf(e), NameError)
  {
  }

  /** Zeitwerk::NameError is a ::NameError and not a Zeitwerk::Error. */
  lemma NameErrorHierarchy()
    ensures IsA(ZeitwerkNameError, NameError)
    ensures !IsA(ZeitwerkNameError, Error)
    ensures !IsA(NameError, Error) && !IsA(Error, NameError)
  {
  }

  /** A ::NameError that is passed through is not a Zeitwerk::Error. */
  lemma PassedThroughIsNotZeitwerk(r: Raised)
    ensures IsA(ClassOfRaised(r), Error) <==> r.Zeitwerk?
  {
    if r.Zeitwerk? {
      ZeitwerkErrorsAreErrors(r.error);
    }
  }

  // The messages are spelled out in pieces so that the verifier can read
  // them character by character.
  const ReloadingDisabledMessage: string :=
    "can't reload, please call " + "loader.enable_reloading before setup"
  const LibNotFoundPrefix: string := "Gem lib directory not found for "
  const NamespacePrefix: string := "The namespace "
  /** The rest of the first line of the NamespaceNotFound message. */
  const NamespaceFirstLineTail: string := " was not found. Please load it before"
  const ReopenHint: string := "the gem reopens it, instead of\n" + "creating it."
  const NamespaceRestLead: string := "setting up Zeitwerk. " + "That way we make sure "
  const NamespaceSuffix: string :=
    NamespaceFirstLineTail + "\n" + NamespaceRestLead + ReopenHint + "\n"

  /** The message each error passes to StandardError#initialize. */
  function Message(e: ZeitwerkError): string {
    match e
    case ReloadingDisabledErr => ReloadingDisabledMessage
    case LibNotFoundErr(p) => LibNotFoundPrefix + p
    case NamespaceNotFoundErr(ns) => NamespacePrefix + ns + NamespaceSuffix
  }

  /** Reads an error back from its message. */
  function ErrorOfMessage(s: string): Option<ZeitwerkError> {
    if HasPrefix(s, LibNotFoundPrefix) then
      Some(LibNotFoundErr(s[|LibNotFoundPrefix|..]))
    else if |NamespacePrefix| + |NamespaceSuffix| <= |s|
         && HasPrefix(s, NamespacePrefix) && HasSuffix(s, NamespaceSuffix) then
      Some(NamespaceNotFoundErr(s[|NamespacePrefix|..|s| - |NamespaceSuffix|]))
    else if s == ReloadingDisabledMessage then
      Some(ReloadingDisabledErr)
    else
      None
  }

  /** The message determines the error: kind and payload can be read back. */
  lemma MessageDeterminesError(e: ZeitwerkError)
    ensures ErrorOfMessage(Message(e)) == Some(e)
  {
    var s := Message(e);
    match e
    case ReloadingDisabledErr =>
      assert ReloadingDisabledMessage[0] == 'c';
      assert !HasPrefix(s, LibNotFoundPrefix) by { assert LibNotFoundPrefix[0] == 'G'; }
      assert !HasPrefix(s, NamespacePrefix) by { assert NamespacePrefix[0] == 'T'; }
    case LibNotFoundErr(p) =>
      assert s[..|LibNotFoundPrefix|] == LibNotFoundPrefix;
      assert s[|LibNotFoundPrefix|..] == p;
    case NamespaceNotFoundErr(ns) =>
      assert s[0] == 'T';
      assert !HasPrefix(s, LibNotFoundPrefix) by { assert LibNotFoundPrefix[0] == 'G'; }
      assert s[..|NamespacePrefix|] == NamespacePrefix;
      assert s[|s| - |NamespaceSuffix|..] == NamespaceSuffix;
      assert s[|NamespacePrefix|..|s| - |NamespaceSuffix|] == ns;
  }

  /** Two errors with equal messages are the same error. */
  lemma MessageInjective(e1: ZeitwerkError, e2: ZeitwerkError)
    requires Message(e1) == Message(e2)
    ensures e1 == e2
  {
    MessageDeterminesError(e1);
    MessageDeterminesError(e2);
  }

  /** The text up to the first line break. */
  function FirstLine(s: string): string {
    if '\n' in s then s[..IndexOf(s, '\n')] else s
  }

  lemma Regroup(a: string, b: string, c: string, d: string, e: string, f: string, g: string)
    ensures a + b + (c + d + e + f + g) == a + b + c + d + e + f + g
    ensures a + b + (c + d + e + f + g) == a + b + c + (d + e + f + g)
  {
  }

  /** The first line of the NamespaceNotFound message names the namespace. */
  lemma NamespaceMessageFirstLine(ns: string)
    requires '\n' !in ns
    ensures FirstLine(Message(NamespaceNotFoundErr(ns)))
         == "The namespace " + ns + " was not found. Please load it before"
  {
    var line := NamespacePrefix + ns + NamespaceFirstLineTail;
    var s := Message(NamespaceNotFoundErr(ns));
    Regroup(NamespacePrefix, ns, NamespaceFirstLineTail, "\n", NamespaceRestLead, ReopenHint, "\n");
    assert s == line + ("\n" + NamespaceRestLead + ReopenHint + "\n");
    assert '\n' !in NamespacePrefix && '\n' !in NamespaceFirstLineTail;
    assert '\n' !in line;
    assert s[..|line|] == line;
    IndexOfUnique(s, '\n', |line|);
  }

  /** The NamespaceNotFound message asks for the namespace to be reopened, not created. */
  lemma NamespaceMessageAsksToReopen(ns: string)
    ensures IsInfix(ReopenHint, Message(NamespaceNotFoundErr(ns)))
  {
    var before := NamespacePrefix + ns + NamespaceFirstLineTail + "\n" + NamespaceRestLead;
    Regroup(NamespacePrefix, ns, NamespaceFirstLineTail, "\n", NamespaceRestLead, ReopenHint, "\n");
    InfixOfConcat(before, ReopenHint, "\n");
  }

  /** The LibNotFound message starts with the fixed prefix and ends with the entry point. */
  lemma LibNotFoundMessageShape(entryPoint: string)
    ensures HasPrefix(Message(LibNotFoundErr(entryPoint)), "Gem lib directory not found for ")
    ensures HasSuffix(Message(LibNotFoundErr(entryPoint)), entryPoint)
  {
    var s := Message(LibNotFoundErr(entryPoint));
    assert s[..|LibNotFoundPrefix|] == LibNotFoundPrefix;
    assert s[|s| - |entryPoint|..] == entryPoint;
  }
}
