/**
 * The diagnostic trace (TraceEnv.kt): a stack of labels that a bracketing `use`
 * pushes for the duration of an action and pops afterwards, also when the action
 * throws.
 */
module Trace {
  import opened Results

  /** How an action ended: with a value, or by throwing. */
  datatype Completion<R> = Returned(value: R) | Threw(exception: string)

  datatype StackError = EmptyStack

  /** The labels separated by `separator`, first to last. */
  function Join(labels: seq<string>, separator: string): string {
    if |labels| == 0 then ""
    else if |labels| == 1 then labels[0]
    else labels[0] + separator + Join(labels[1..], separator)
  }

  /** Appending a label appends it, after a separator, to the joined text. */
  lemma {:induction false} JoinAppend(labels: seq<string>, separator: string, last: string)
    ensures Join(labels + [last], separator)
         == if |labels| == 0 then last else Join(labels, separator) + separator + last
  {
    if |labels| > 1 {
      assert (labels + [last])[1..] == labels[1..] + [last];
      JoinAppend(labels[1..], separator, last);
    }
  }

  /** Two nested `use` calls on an empty trace print the outer label first. */
  lemma NestedLabelsOuterFirst(outer: string, inner: string)
    ensures Join([outer, inner], ", ") == outer + ", " + inner
  {
    JoinAppend([outer], ", ", inner);
    assert [outer] + [inner] == [outer, inner];
  }

  class TraceEnv {
    /** The labels, bottom of the stack first. */
    var stack: seq<string>

    constructor ()
      ensures stack == []
    {
      stack := [];
    }

    method Push(s: string)
      modifies this
      ensures stack == old(stack) + [s]
    {
      stack := stack + [s];
    }

    /** Removes and returns the top label; an empty stack raises an error and stays empty. */
    method Pop() returns (r: Result<string, StackError>)
      modifies this
      ensures old(stack) == [] ==> r == Err(EmptyStack) && stack == []
      ensures old(stack) != [] ==> r == Ok(old(stack)[|old(stack)| - 1])
      ensures old(stack) != [] ==> stack == old(stack)[..|old(stack)| - 1]
    {
      if stack == [] {
        r := Err(EmptyStack);
      } else {
        r := Ok(stack[|stack| - 1]);
        stack := stack[..|stack| - 1];
      }
    }

    /** The labels joined bottom to top with ", ". */
    function ToString(): (text: string)
      reads this
      ensures stack == [] ==> text == ""
      ensures |stack| >= 1 ==> stack[0] <= text
    {
      Join(stack, ", ")
    }

    /**
     * Runs `action` with `str` pushed on top of the trace and pops it again,
     * whether the action returns or throws. The action sees the trace as it is
     * while it runs; its completion, value or exception, is passed on.
     */
    method Use<R>(str: string, action: seq<string> -> Completion<R>) returns (c: Completion<R>)
      modifies this
      ensures stack == old(stack)
      ensures c == action(old(stack) + [str])
    {
      Push(str);
      c := action(stack);
      var popped := Pop();
      assert popped == Ok(str);
      assert (old(stack) + [str])[..|old(stack)|] == old(stack);
    }
  }
}
