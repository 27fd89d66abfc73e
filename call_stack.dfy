/** The per-thread call stack: an array of reusable frame slots (`CallStackElt`),
    linked parent to child, with a `curr` pointer to the frame of the innermost
    open call. Every slot but the last holds a `StackPusher` bound to the next slot,
    and every slot holds a `StackPopper` bound to itself. */
module CallStacks {
  import opened JavaInts
  import opened Options

  /** A parameter or property value: Java's `Object`, with the primitive overloads
      of `returnValue`, and a thrown exception described by its simple class name. */
  datatype Value =
    | NullValue
    | BoolValue(b: bool)
    | IntValue(i: Int32)
    | LongValue(l: Long)
    | StringValue(s: string)
    | ObjectRef(id: nat)
    | Throwable(simpleClassName: string, id: nat)

  /** The three clocks read when a frame is pushed or popped: wall time, thread user
      time and thread cpu time. */
  datatype Clocks = Clocks(time: Long, userTime: Long, cpuTime: Long)

  /** Java string concatenation shows a null string as "null". */
  function NameString(s: Option<string>): string
  {
    if s.Some? then s.value else "null"
  }

  /** `DEFAULT_ALLOC_INCR_STACK_LEN`. */
  const DEFAULT_ALLOC_INCR_STACK_LEN: nat := 5

  /** The initial number of slots. */
  const INITIAL_STACK_LEN: nat := 10

  class CallStackElt {
    const ownerStack: CallStack
    const parent: CallStackElt?
    const index: nat

    var className: Option<string>
    var name: Option<string>

    /** Lazily allocated in the Java class; an absent map reads as empty. */
    var params: map<string, Value>
    var inheritableProps: map<string, Value>
    /** The cache of `getInheritedProps`, filled on first use. */
    var inheritedProps: Option<map<string, Value>>

    var pusher: StackPusher?
    var popper: StackPopper?

    var startTime: Long
    var threadCpuStartTime: Long
    var threadUserStartTime: Long
    var endTime: Long
    var threadCpuEndTime: Long
    var threadUserEndTime: Long

    var progressExpectedCount: Int32
    var progressIndex: Int32
    var progressMessage: Option<string>

    constructor (ownerStack: CallStack, stackEltIndex: nat, parentCallStackElt: CallStackElt?)
      ensures this.ownerStack == ownerStack && index == stackEltIndex && parent == parentCallStackElt
      ensures className == None && name == None
      ensures params == map[] && inheritableProps == map[] && inheritedProps == None
      ensures pusher == null && popper != null && popper.callStackElt == this && fresh(popper)
      ensures startTime == 0 && threadCpuStartTime == 0 && threadUserStartTime == 0
      ensures endTime == 0 && threadCpuEndTime == 0 && threadUserEndTime == 0
      ensures progressExpectedCount == 0 && progressIndex == 0 && progressMessage == None
    {
      this.ownerStack := ownerStack;
      this.index := stackEltIndex;
      this.parent := parentCallStackElt;
      className, name := None, None;
      params, inheritableProps, inheritedProps := map[], map[], None;
      pusher, popper := null, null;
      startTime, threadCpuStartTime, threadUserStartTime := 0, 0, 0;
      endTime, threadCpuEndTime, threadUserEndTime := 0, 0, 0;
      progressExpectedCount, progressIndex, progressMessage := 0, 0, None;
      new;
      popper := new StackPopper(this);
    }

    /** The parent chain goes down one depth at a time to a root at depth 0. */
    predicate WellLinked()
      decreases index
    {
      if index == 0 then parent == null
      else parent != null && parent.index == index - 1 && parent.WellLinked()
    }

    /** This frame and all its ancestors. */
    function Ancestors(): (s: set<CallStackElt>)
      requires WellLinked()
      ensures this in s
      ensures parent != null ==> parent in s && parent.Ancestors() <= s
      decreases index
    {
      if parent == null then {this} else {this} + parent.Ancestors()
    }

    /** Every ancestor is well linked, no deeper than this frame, and has its own
        ancestors among this frame's. */
    lemma {:induction false} AncestorsBelow()
      requires WellLinked()
      ensures forall a | a in Ancestors() :: a.WellLinked() && a.index <= index && a.Ancestors() <= Ancestors()
      decreases index
    {
      if parent != null {
        parent.AncestorsBelow();
      }
    }

    /** The ancestors of a frame that already existed existed as well. */
    twostate lemma {:induction false} AncestorsAllocated()
      requires WellLinked()
      ensures forall a | a in Ancestors() :: old(allocated(a))
      decreases index
    {
      if parent != null {
        parent.AncestorsAllocated();
      }
    }

    /** The path label of this frame: className + ":" + name. */
    function Label(): string
      reads this
    {
      NameString(className) + ":" + NameString(name)
    }

    /** The labels from the root down to this frame. */
    function Path(): (p: seq<string>)
      requires WellLinked()
      reads Ancestors()
      ensures |p| == index + 1 && p[index] == Label()
      decreases index
    {
      (if parent == null then [] else parent.Path()) + [Label()]
    }

    /** The ancestor of this frame at depth d. */
    function AncestorAt(d: nat): (a: CallStackElt)
      requires WellLinked() && d <= index
      ensures a.WellLinked() && a.index == d && a in Ancestors()
      decreases index
    {
      if d == index then this else parent.AncestorAt(d)
    }

    /** Entry d of the path is the label of the ancestor at depth d. */
    lemma {:induction false} PathAt(d: nat)
      requires WellLinked() && d <= index
      ensures Path()[d] == AncestorAt(d).Label()
      decreases index
    {
      if d < index {
        parent.PathAt(d);
      }
    }

    /** `getPath()`: one label per depth, filled from this frame up to the root. */
    method GetPath() returns (res: array<string>)
      requires WellLinked()
      ensures fresh(res) && res.Length == index + 1
      ensures res[..] == Path()
    {
      res := new string[index + 1](_ => "");
      var c: CallStackElt? := this;
      var i: int := index;
      while i >= 0
        invariant -1 <= i <= index
        invariant i >= 0 ==> c == AncestorAt(i)
        invariant forall j | i < j <= index :: res[j] == AncestorAt(j).Label()
        decreases i
      {
        res[i] := NameString(c.className) + ":" + NameString(c.name);
        if i > 0 {
          AncestorAtParent(i);
        }
        i := i - 1;
        c := c.parent;
      }
      LabelsArePath(res[..]);
    }

    /** A sequence holding, at each depth, the label of the ancestor at that depth is
        the path. */
    lemma LabelsArePath(s: seq<string>)
      requires WellLinked() && |s| == index + 1
      requires forall d | 0 <= d <= index :: s[d] == AncestorAt(d).Label()
      ensures s == Path()
    {
      forall d | 0 <= d <= index
        ensures s[d] == Path()[d]
      {
        PathAt(d);
      }
    }

    /** The parent of the ancestor at depth d is the ancestor at depth d - 1. */
    lemma {:induction false} AncestorAtParent(d: nat)
      requires WellLinked() && 1 <= d <= index
      ensures AncestorAt(d).parent == AncestorAt(d - 1)
      decreases index
    {
      if d < index {
        parent.AncestorAtParent(d);
      }
    }

    /** The inherited properties the frame's `getInheritedProps` returns: the cached
        map when there is one, otherwise the parent's inherited properties overlaid
        with this frame's own inheritable properties. */
    function Inherited(): map<string, Value>
      requires WellLinked()
      reads Ancestors()
      decreases index
    {
      if inheritedProps.Some? then inheritedProps.value
      else (if parent == null then map[] else parent.Inherited()) + inheritableProps
    }

    /** The overlay of the inheritable properties from the root down to this frame,
        the deeper frame winning on a shared key. */
    function ChainProps(): (m: map<string, Value>)
      requires WellLinked()
      reads Ancestors()
      ensures forall k | k in inheritableProps :: k in m && m[k] == inheritableProps[k]
      ensures parent != null ==> forall k | k in parent.ChainProps() && k !in inheritableProps ::
        k in m && m[k] == parent.ChainProps()[k]
      ensures parent == null ==> m == inheritableProps
      decreases index
    {
      (if parent == null then map[] else parent.ChainProps()) + inheritableProps
    }

    /** No frame on the chain has filled its cache yet. */
    predicate NoCacheOnChain()
      requires WellLinked()
      reads Ancestors()
      decreases index
    {
      inheritedProps.None? && (parent != null ==> parent.NoCacheOnChain())
    }

    /** Before any cache is filled, the inherited properties are the overlay of the
        chain's inheritable properties. */
    lemma {:induction false} InheritedIsChainProps()
      requires WellLinked() && NoCacheOnChain()
      ensures Inherited() == ChainProps()
      decreases index
    {
      if parent != null {
        parent.InheritedIsChainProps();
      }
    }

    /** `getInheritedProps()`: computed once, by recursion over the parent, and cached;
        later calls return the cached map even if the properties changed since. */
    method GetInheritedProps() returns (r: map<string, Value>)
      requires WellLinked()
      modifies Ancestors()`inheritedProps
      ensures r == old(Inherited())
      ensures inheritedProps == Some(r)
      ensures forall a | a in Ancestors() :: old(allocated(a))
      ensures forall a | a in Ancestors() && a.WellLinked() :: a.Inherited() == old(a.Inherited())
      decreases index
    {
      if inheritedProps.None? {
        var tmpres: map<string, Value> := map[];
        if parent != null {
          var fromParent := parent.GetInheritedProps();
          tmpres := tmpres + fromParent;
          parent.AncestorsBelow();
        }
        tmpres := tmpres + inheritableProps;
        inheritedProps := Some(tmpres);
      }
      r := inheritedProps.value;
      AncestorsAllocated();
    }

    /** `getElapsedTime()`: end time minus start time, as a `long`. */
    function ElapsedTime(): (r: Long)
      reads this
      ensures LONG_MIN <= endTime - startTime <= LONG_MAX ==> r == endTime - startTime
      ensures (endTime - startTime - r) % TWO_64 == 0
    {
      WrapLongDiff(endTime - startTime);
      WrapLong(endTime as int - startTime)
    }

    /** `pusher(className, name)`: names the next slot through this frame's pusher. */
    method Pusher(className: Option<string>, name: Option<string>) returns (p: StackPusher)
      requires pusher != null
      modifies pusher.pushedElt`className, pusher.pushedElt`name
      ensures p == pusher && p.pushedElt.className == className && p.pushedElt.name == name
      ensures old(ownerStack.Valid()) ==> ownerStack.Valid()
    {
      p := pusher.WithName(className, name);
    }

    /** `onPushSetStartTime()`, with the clock readings passed in. */
    method OnPushSetStartTime(clocks: Clocks)
      modifies this`startTime, this`threadUserStartTime, this`threadCpuStartTime
      ensures startTime == clocks.time && threadUserStartTime == clocks.userTime && threadCpuStartTime == clocks.cpuTime
    {
      startTime := clocks.time;
      threadUserStartTime := clocks.userTime;
      threadCpuStartTime := clocks.cpuTime;
    }

    /** `onPushSetParentStartTime()`: the start times are the parent's. */
    method OnPushSetParentStartTime()
      requires parent != null
      modifies this`startTime, this`threadUserStartTime, this`threadCpuStartTime
      ensures startTime == old(parent.startTime) && threadUserStartTime == old(parent.threadUserStartTime)
      ensures threadCpuStartTime == old(parent.threadCpuStartTime)
    {
      var p := parent;
      startTime := p.startTime;
      threadUserStartTime := p.threadUserStartTime;
      threadCpuStartTime := p.threadCpuStartTime;
    }

    /** `onPopSetEndTime()`, with the clock readings passed in: sets the end times and
        resets the progress fields. */
    method OnPopSetEndTime(clocks: Clocks)
      modifies this`threadCpuEndTime, this`threadUserEndTime, this`endTime
      modifies this`progressExpectedCount, this`progressIndex, this`progressMessage
      ensures endTime == clocks.time && threadUserEndTime == clocks.userTime && threadCpuEndTime == clocks.cpuTime
      ensures progressExpectedCount == 0 && progressIndex == 0 && progressMessage == None
    {
      threadCpuEndTime := clocks.cpuTime;
      threadUserEndTime := clocks.userTime;
      endTime := clocks.time;
      progressExpectedCount := 0;
      progressIndex := 0;
      progressMessage := None;
    }

    /** `onProgressStep(incr, message)`. */
    method OnProgressStep(incr: Int32, message: Option<string>)
      modifies this`progressIndex, this`progressMessage
      ensures progressIndex == WrapInt(old(progressIndex) as int + incr) && progressMessage == message
    {
      progressIndex := WrapInt(progressIndex as int + incr);
      progressMessage := message;
    }

    /** `putParam(name, value)`: inserts or overwrites one key. */
    method PutParam(paramName: string, value: Value)
      modifies this`params
      ensures params == old(params)[paramName := value]
    {
      params := params[paramName := value];
    }

    /** `putAllParams(p)`: the given entries win over existing ones. */
    method PutAllParams(p: map<string, Value>)
      modifies this`params
      ensures params == old(params) + p
    {
      params := params + p;
    }

    /** `putInheritableProp(name, value)`: inserts or overwrites one key. */
    method PutInheritableProp(propName: string, value: Value)
      modifies this`inheritableProps
      ensures inheritableProps == old(inheritableProps)[propName := value]
    {
      inheritableProps := inheritableProps[propName := value];
    }

    /** `putAllInheritableProps(p)`: the given entries win over existing ones. */
    method PutAllInheritableProps(p: map<string, Value>)
      modifies this`inheritableProps
      ensures inheritableProps == old(inheritableProps) + p
    {
      inheritableProps := inheritableProps + p;
    }
  }

  /** Putting one parameter changes that key only. */
  lemma PutParamKeepsOthers(params: map<string, Value>, k: string, v: Value, other: string)
    requires other != k
    ensures k in params[k := v] && params[k := v][k] == v
    ensures other in params[k := v] <==> other in params
    ensures other in params ==> params[k := v][other] == params[other]
  {
  }

  class StackPusher {
    const pushedElt: CallStackElt

    constructor (pushedElt: CallStackElt)
      ensures this.pushedElt == pushedElt
    {
      this.pushedElt := pushedElt;
    }

    /** `withName(className, name)`. */
    method WithName(className: Option<string>, name: Option<string>) returns (r: StackPusher)
      modifies pushedElt`className, pushedElt`name
      ensures r == this && pushedElt.className == className && pushedElt.name == name
      ensures old(pushedElt.ownerStack.Valid()) ==> pushedElt.ownerStack.Valid()
    {
      pushedElt.className := className;
      pushedElt.name := name;
      r := this;
    }

    /** `p(name, value)`, the short form of `withParam`. */
    method P(paramName: string, value: Value) returns (r: StackPusher)
      modifies pushedElt`params
      ensures r == this && pushedElt.params == old(pushedElt.params)[paramName := value]
    {
      r := WithParam(paramName, value);
    }

    method WithParam(paramName: string, value: Value) returns (r: StackPusher)
      modifies pushedElt`params
      ensures r == this && pushedElt.params == old(pushedElt.params)[paramName := value]
      ensures old(pushedElt.ownerStack.Valid()) ==> pushedElt.ownerStack.Valid()
    {
      pushedElt.PutParam(paramName, value);
      r := this;
    }

    method WithParams(p: map<string, Value>) returns (r: StackPusher)
      modifies pushedElt`params
      ensures r == this && pushedElt.params == old(pushedElt.params) + p
    {
      pushedElt.PutAllParams(p);
      r := this;
    }

    method WithInheritableProp(propName: string, value: Value) returns (r: StackPusher)
      modifies pushedElt`inheritableProps
      ensures r == this && pushedElt.inheritableProps == old(pushedElt.inheritableProps)[propName := value]
    {
      pushedElt.PutInheritableProp(propName, value);
      r := this;
    }

    method WithAllInheritableProps(p: map<string, Value>) returns (r: StackPusher)
      modifies pushedElt`inheritableProps
      ensures r == this && pushedElt.inheritableProps == old(pushedElt.inheritableProps) + p
    {
      pushedElt.PutAllInheritableProps(p);
      r := this;
    }

    method WithProgressExpectedCount(p: Int32) returns (r: StackPusher)
      modifies pushedElt`progressExpectedCount
      ensures r == this && pushedElt.progressExpectedCount == p
    {
      pushedElt.progressExpectedCount := p;
      r := this;
    }

    /** `push()`: the bound frame becomes the owner stack's current frame. */
    method Push(clocks: Clocks) returns (popper: StackPopper)
      requires pushedElt.ownerStack.Valid() && pushedElt in pushedElt.ownerStack.stackElts[..]
      modifies pushedElt.ownerStack, pushedElt`startTime, pushedElt`threadUserStartTime, pushedElt`threadCpuStartTime
      modifies pushedElt.ownerStack.LastFrame()`pusher
      ensures pushedElt.ownerStack.Valid() && pushedElt.ownerStack.curr == pushedElt && pushedElt.pusher != null
      ensures popper == pushedElt.popper && popper.callStackElt == pushedElt
      ensures pushedElt.startTime == clocks.time && pushedElt.threadUserStartTime == clocks.userTime
      ensures pushedElt.threadCpuStartTime == clocks.cpuTime
      ensures old(pushedElt.ownerStack.stackElts.Length) <= pushedElt.ownerStack.stackElts.Length
      ensures pushedElt.ownerStack.stackElts[..old(pushedElt.ownerStack.stackElts.Length)] == old(pushedElt.ownerStack.stackElts[..])
      ensures forall i | old(pushedElt.ownerStack.stackElts.Length) <= i < pushedElt.ownerStack.stackElts.Length :: fresh(pushedElt.ownerStack.stackElts[i])
    {
      popper := pushedElt.ownerStack.DoPush(pushedElt, clocks);
    }

    /** `pushWithParentStartTime()`: like `push()`, but the start times are copied from
        the parent frame. */
    method PushWithParentStartTime() returns (popper: StackPopper)
      requires pushedElt.ownerStack.Valid() && pushedElt in pushedElt.ownerStack.stackElts[..]
      requires pushedElt.parent != null
      modifies pushedElt.ownerStack, pushedElt`startTime, pushedElt`threadUserStartTime, pushedElt`threadCpuStartTime
      modifies pushedElt.ownerStack.LastFrame()`pusher
      ensures pushedElt.ownerStack.Valid() && pushedElt.ownerStack.curr == pushedElt && pushedElt.pusher != null
      ensures popper == pushedElt.popper && popper.callStackElt == pushedElt
      ensures pushedElt.startTime == old(pushedElt.parent.startTime)
      ensures pushedElt.threadUserStartTime == old(pushedElt.parent.threadUserStartTime)
      ensures pushedElt.threadCpuStartTime == old(pushedElt.parent.threadCpuStartTime)
      ensures old(pushedElt.ownerStack.stackElts.Length) <= pushedElt.ownerStack.stackElts.Length
      ensures pushedElt.ownerStack.stackElts[..old(pushedElt.ownerStack.stackElts.Length)] == old(pushedElt.ownerStack.stackElts[..])
      ensures forall i | old(pushedElt.ownerStack.stackElts.Length) <= i < pushedElt.ownerStack.stackElts.Length :: fresh(pushedElt.ownerStack.stackElts[i])
    {
      popper := pushedElt.ownerStack.DoPushWithParentStartTime(pushedElt);
    }
  }

  class StackPopper {
    const callStackElt: CallStackElt

    constructor (callStackElt: CallStackElt)
      ensures this.callStackElt == callStackElt
    {
      this.callStackElt := callStackElt;
    }

    /** `close()`: pops the bound frame, which must be the current one. */
    method Close(clocks: Clocks)
      requires callStackElt.ownerStack.Valid() && callStackElt.ownerStack.curr == callStackElt
      modifies callStackElt.ownerStack`curr
      modifies callStackElt`threadCpuEndTime, callStackElt`threadUserEndTime, callStackElt`endTime
      modifies callStackElt`progressExpectedCount, callStackElt`progressIndex, callStackElt`progressMessage
      ensures callStackElt.ownerStack.Valid() && callStackElt.ownerStack.curr == callStackElt.parent
      ensures callStackElt.endTime == clocks.time && callStackElt.threadUserEndTime == clocks.userTime
      ensures callStackElt.threadCpuEndTime == clocks.cpuTime
      ensures callStackElt.progressExpectedCount == 0 && callStackElt.progressIndex == 0
      ensures callStackElt.progressMessage == None
    {
      callStackElt.ownerStack.DoPop(callStackElt, clocks);
    }

    /** `progressStep(incr, message)`: advances the frame's progress; the stack's own
        step only notifies listeners, so `curr` is unchanged. */
    method ProgressStep(incr: Int32, message: Option<string>) returns (r: StackPopper)
      modifies callStackElt`progressIndex, callStackElt`progressMessage
      ensures r == this
      ensures callStackElt.progressIndex == WrapInt(old(callStackElt.progressIndex) as int + incr)
      ensures callStackElt.progressMessage == message
    {
      callStackElt.OnProgressStep(incr, message);
      r := this;
    }

    method WithParamValue(paramName: string, value: Value) returns (r: StackPopper)
      modifies callStackElt`params
      ensures r == this && callStackElt.params == old(callStackElt.params)[paramName := value]
    {
      callStackElt.PutParam(paramName, value);
      r := this;
    }

    /** `withReturnValue(v)`: the value is stored under "return". */
    method WithReturnValue(value: Value) returns (r: StackPopper)
      modifies callStackElt`params
      ensures r == this && callStackElt.params == old(callStackElt.params)["return" := value]
    {
      r := WithParamValue("return", value);
    }

    /** `returnParamValue(name, v)`: stores v under the name and hands v back. */
    method ReturnParamValue(paramName: string, value: Value) returns (r: Value)
      modifies callStackElt`params
      ensures r == value && callStackElt.params == old(callStackElt.params)[paramName := value]
    {
      var _ := WithParamValue(paramName, value);
      r := value;
    }

    /** `returnValue(v)`, for objects and for the boolean, int and long overloads. */
    method ReturnValue(value: Value) returns (r: Value)
      modifies callStackElt`params
      ensures r == value && callStackElt.params == old(callStackElt.params)["return" := value]
    {
      var _ := WithParamValue("return", value);
      r := value;
    }

    /** `returnException(ex)`: records ex under a frame named "exception-" followed by
        the exception's simple class name, and hands ex back. */
    method ReturnException(ex: Value, clocks: Clocks) returns (r: Value)
      requires ex.Throwable?
      requires callStackElt.ownerStack.Valid() && callStackElt.ownerStack.curr == callStackElt
      modifies callStackElt.ownerStack, callStackElt.ownerStack.LastFrame()`pusher
      modifies callStackElt.pusher.pushedElt
      ensures r == ex
      ensures callStackElt.ownerStack.Valid() && callStackElt.ownerStack.curr == callStackElt
      ensures ExceptionFrameRecorded(old(callStackElt.pusher.pushedElt), old(callStackElt.className),
        "exception-" + ex.simpleClassName, old(callStackElt.pusher.pushedElt.params), ex, clocks)
      ensures ExceptionFrameTimed(old(callStackElt.pusher.pushedElt), old(callStackElt.startTime),
        old(callStackElt.threadUserStartTime), old(callStackElt.threadCpuStartTime))
      ensures old(callStackElt.ownerStack.stackElts.Length) <= callStackElt.ownerStack.stackElts.Length
      ensures callStackElt.ownerStack.stackElts[..old(callStackElt.ownerStack.stackElts.Length)] == old(callStackElt.ownerStack.stackElts[..])
      ensures forall i | old(callStackElt.ownerStack.stackElts.Length) <= i < callStackElt.ownerStack.stackElts.Length :: fresh(callStackElt.ownerStack.stackElts[i])
    {
      var eltName := "exception-" + ex.simpleClassName;
      ReturnExceptionNamed(eltName, ex, clocks);
      r := ex;
    }

    /** `returnException(eltName, ex)`: pushes a child frame with this frame's class
        name, the given name and the exception as parameter "ex", starting when this
        frame started, and pops it at once. */
    method ReturnExceptionNamed(eltName: string, ex: Value, clocks: Clocks)
      requires callStackElt.ownerStack.Valid() && callStackElt.ownerStack.curr == callStackElt
      modifies callStackElt.ownerStack, callStackElt.ownerStack.LastFrame()`pusher
      modifies callStackElt.pusher.pushedElt
      ensures callStackElt.ownerStack.Valid() && callStackElt.ownerStack.curr == callStackElt
      ensures ExceptionFrameRecorded(old(callStackElt.pusher.pushedElt), old(callStackElt.className),
        eltName, old(callStackElt.pusher.pushedElt.params), ex, clocks)
      ensures ExceptionFrameTimed(old(callStackElt.pusher.pushedElt), old(callStackElt.startTime),
        old(callStackElt.threadUserStartTime), old(callStackElt.threadCpuStartTime))
      ensures old(callStackElt.ownerStack.stackElts.Length) <= callStackElt.ownerStack.stackElts.Length
      ensures callStackElt.ownerStack.stackElts[..old(callStackElt.ownerStack.stackElts.Length)] == old(callStackElt.ownerStack.stackElts[..])
      ensures forall i | old(callStackElt.ownerStack.stackElts.Length) <= i < callStackElt.ownerStack.stackElts.Length :: fresh(callStackElt.ownerStack.stackElts[i])
    {
      var toPop := PushExceptionFrame(eltName, ex);
      toPop.Close(clocks);
    }

    /** The naming half of `returnException(eltName, ex)`: the pusher of this frame,
        with the next slot named after this frame's class and `eltName`, and the
        exception stored as its parameter "ex". */
    method NameExceptionFrame(eltName: string, ex: Value) returns (pusher: StackPusher)
      requires callStackElt.ownerStack.Valid() && callStackElt.ownerStack.curr == callStackElt
      modifies callStackElt.pusher.pushedElt`className, callStackElt.pusher.pushedElt`name
      modifies callStackElt.pusher.pushedElt`params
      ensures pusher == callStackElt.pusher && pusher.pushedElt.parent == callStackElt
      ensures pusher.pushedElt in callStackElt.ownerStack.stackElts[..]
      ensures callStackElt != callStackElt.ownerStack.LastFrame()
      ensures pusher.pushedElt.className == old(callStackElt.className) && pusher.pushedElt.name == Some(eltName)
      ensures pusher.pushedElt.params == old(pusher.pushedElt.params)["ex" := ex]
    {
      var stack := callStackElt.ownerStack;
      var elt := callStackElt;
      ghost var k :| 0 <= k < stack.stackElts.Length && stack.stackElts[k] == elt;
      assert elt.pusher.pushedElt == stack.stackElts[k + 1] && stack.stackElts[k + 1].parent == elt;
      var className := elt.className;
      pusher := elt.Pusher(className, Some(eltName));
      pusher := pusher.WithParam("ex", ex);
      assert stack.stackElts[k + 1] in stack.stackElts[..];
    }

    /** The push half of `returnException(eltName, ex)`. */
    method PushExceptionFrame(eltName: string, ex: Value) returns (toPop: StackPopper)
      requires callStackElt.ownerStack.Valid() && callStackElt.ownerStack.curr == callStackElt
      modifies callStackElt.ownerStack, callStackElt.ownerStack.LastFrame()`pusher
      modifies callStackElt.pusher.pushedElt
      ensures callStackElt.ownerStack.Valid() && callStackElt.pusher != null
      ensures toPop.callStackElt == callStackElt.pusher.pushedElt == old(callStackElt.pusher.pushedElt)
      ensures callStackElt.ownerStack.curr == toPop.callStackElt && toPop.callStackElt.parent == callStackElt
      ensures toPop.callStackElt.className == old(callStackElt.className) && toPop.callStackElt.name == Some(eltName)
      ensures toPop.callStackElt.params == old(callStackElt.pusher.pushedElt.params)["ex" := ex]
      ensures ExceptionFrameTimed(toPop.callStackElt, old(callStackElt.startTime),
        old(callStackElt.threadUserStartTime), old(callStackElt.threadCpuStartTime))
      ensures old(callStackElt.ownerStack.stackElts.Length) <= callStackElt.ownerStack.stackElts.Length
      ensures callStackElt.ownerStack.stackElts[..old(callStackElt.ownerStack.stackElts.Length)] == old(callStackElt.ownerStack.stackElts[..])
      ensures forall i | old(callStackElt.ownerStack.stackElts.Length) <= i < callStackElt.ownerStack.stackElts.Length :: fresh(callStackElt.ownerStack.stackElts[i])
    {
      var pusher := NameExceptionFrame(eltName, ex);
      toPop := pusher.PushWithParentStartTime();
    }
  }

  /** The child frame that `returnException` pushed and popped: named after the
      popped-from frame's class and the given name, with the exception stored as
      parameter "ex", its end times stamped and its progress reset. */
  ghost predicate ExceptionFrameRecorded(next: CallStackElt, className: Option<string>, eltName: string,
    oldParams: map<string, Value>, ex: Value, clocks: Clocks)
    reads next
  {
    next.className == className && next.name == Some(eltName) &&
    next.params == oldParams["ex" := ex] &&
    next.endTime == clocks.time && next.threadUserEndTime == clocks.userTime && next.threadCpuEndTime == clocks.cpuTime &&
    next.progressExpectedCount == 0 && next.progressIndex == 0 && next.progressMessage == None
  }

  /** The exception frame's start times are those of the frame it was pushed from. */
  ghost predicate ExceptionFrameTimed(next: CallStackElt, startTime: Long, userStart: Long, cpuStart: Long)
    reads next
  {
    next.startTime == startTime && next.threadUserStartTime == userStart && next.threadCpuStartTime == cpuStart
  }

  class CallStack {
    var curr: CallStackElt?
    var stackElts: array<CallStackElt>

    /** The frame slots. */
    function Frames(): seq<CallStackElt>
      reads this, stackElts
    {
      stackElts[..]
    }

    /** The structure of the slot array: slot i has depth i and this owner; slot 0
        has no parent and slot i's parent is slot i-1; every slot but the last has a
        pusher bound to the next slot; every slot has a popper bound to itself; and
        `curr` is null or a slot that has a pusher. */
    ghost predicate Linked()
      reads this, stackElts, stackElts[..]`pusher, stackElts[..]`popper
    {
      SlotsLinked(stackElts, stackElts.Length) &&
      (curr != null ==> curr in stackElts[..] && curr.pusher != null)
    }

    /** The first n slots of a are linked as `Linked` describes, slot n - 1 last. */
    ghost predicate SlotsLinked(a: array<CallStackElt>, n: nat)
      reads a, a[..]`pusher, a[..]`popper
    {
      1 <= n <= a.Length &&
      (forall i | 0 <= i < n :: a[i].index == i && a[i].ownerStack == this) &&
      a[0].parent == null &&
      (forall i | 0 < i < n :: a[i].parent == a[i - 1]) &&
      (forall i | 0 <= i < n - 1 :: a[i].pusher != null && a[i].pusher.pushedElt == a[i + 1]) &&
      a[n - 1].pusher == null &&
      (forall i | 0 <= i < n :: a[i].popper != null && a[i].popper.callStackElt == a[i])
    }

    /** `Linked`, and the array length is 10 plus a multiple of 5. */
    ghost predicate Valid()
      reads this, stackElts, stackElts[..]`pusher, stackElts[..]`popper
    {
      Linked() && stackElts.Length >= INITIAL_STACK_LEN &&
      (stackElts.Length - INITIAL_STACK_LEN) % DEFAULT_ALLOC_INCR_STACK_LEN == 0
    }

    /** A new stack: ten slots, the current frame is the root slot. */
    constructor ()
      ensures Valid() && stackElts.Length == INITIAL_STACK_LEN
      ensures curr == stackElts[0] && curr.index == 0 && curr.parent == null
      ensures forall i | 0 <= i < stackElts.Length :: fresh(stackElts[i])
    {
      curr := null;
      stackElts := new CallStackElt[0];
      new;
      var root := new CallStackElt(this, 0, null);
      stackElts := new CallStackElt[1](_ => root);
      ReallocStackEltArray(INITIAL_STACK_LEN);
      assert stackElts[0] == root && root.pusher != null;
      assert SlotsLinked(stackElts, stackElts.Length);
      curr := root;
      assert stackElts.Length - INITIAL_STACK_LEN == 0 && 0 % DEFAULT_ALLOC_INCR_STACK_LEN == 0;
    }

    /** The last slot, the only one without a pusher. */
    function LastFrame(): CallStackElt
      requires stackElts.Length >= 1
      reads this, stackElts
    {
      stackElts[stackElts.Length - 1]
    }

    /** `curr()`. */
    function Curr(): (c: CallStackElt?)
      requires Valid()
      reads this, stackElts, stackElts[..]`pusher, stackElts[..]`popper
      ensures c != null ==> c in Frames() && c.pusher != null
    {
      curr
    }

    /** Every slot of a linked array has a parent chain down to the root. */
    lemma {:induction false} SlotWellLinked(k: nat)
      requires Linked() && k < stackElts.Length
      ensures stackElts[k].WellLinked()
      decreases k
    {
      if k > 0 {
        SlotWellLinked(k - 1);
      }
    }

    /** `reallocStackEltArray(stackLen)`: keeps the old slots and appends new ones,
        each linked to the previous slot; the old last slot gets a pusher for the
        first new one. */
    method ReallocStackEltArray(stackLen: nat)
      requires Linked() && stackLen >= stackElts.Length
      modifies this`stackElts, LastFrame()`pusher
      ensures Linked() && stackElts.Length == stackLen
      ensures stackElts[..old(stackElts.Length)] == old(stackElts[..])
      ensures forall i | old(stackElts.Length) <= i < stackLen :: fresh(stackElts[i])
    {
      var prevStackElts := stackElts;
      ghost var k: int := -1;
      if curr != null {
        k :| 0 <= k < prevStackElts.Length && prevStackElts[k] == curr;
      }
      var newStackElts := GrownSlots(prevStackElts, LastFrame(), stackLen);
      assert curr != null ==> curr == newStackElts[k] && k < stackLen - 1;
      assert curr != null ==> curr == newStackElts[..][k] && curr in newStackElts[..];
      stackElts := newStackElts;
    }

    /** The copy and the loop of `reallocStackEltArray`: a new array of length
        stackLen that starts with the slots of prev and goes on with new slots, each
        linked to the one before; `last` is the last slot of prev. */
    method GrownSlots(prev: array<CallStackElt>, last: CallStackElt, stackLen: nat) returns (a: array<CallStackElt>)
      requires SlotsLinked(prev, prev.Length) && last == prev[prev.Length - 1] && stackLen >= prev.Length
      modifies last`pusher
      ensures fresh(a) && a.Length == stackLen && SlotsLinked(a, stackLen)
      ensures a[..prev.Length] == prev[..]
      ensures forall i | prev.Length <= i < stackLen :: fresh(a[i])
    {
      var n := prev.Length;
      a := CopyOfSlots(prev, stackLen);
      assert SlotsLinked(a, n);
      var i := n;
      while i < stackLen
        invariant n <= i <= stackLen
        invariant SlotsLinked(a, i)
        invariant forall j | 0 <= j < n :: a[j] == prev[j]
        invariant forall j | n <= j < i :: fresh(a[j])
      {
        AppendSlot(a, i, a[i - 1]);
        i := i + 1;
      }
      assert a[..n] == prev[..];
    }

    /** The array copy of `reallocStackEltArray`: a new array of the given length
        whose first slots are the old ones. The Java class leaves the rest null until
        the loop fills them; here they hold the root until then. */
    static method CopyOfSlots(prev: array<CallStackElt>, len: nat) returns (a: array<CallStackElt>)
      requires 1 <= prev.Length <= len
      ensures fresh(a) && a.Length == len
      ensures forall j | 0 <= j < prev.Length :: a[j] == prev[j]
    {
      var root := prev[0];
      a := new CallStackElt[len](_ => root);
      forall j | 0 <= j < prev.Length {
        a[j] := prev[j];
      }
    }

    /** One step of `reallocStackEltArray`: slot i is a new frame whose parent is
        slot i - 1, and slot i - 1 gets a pusher for it. */
    method AppendSlot(a: array<CallStackElt>, i: nat, last: CallStackElt)
      requires SlotsLinked(a, i) && i < a.Length && last == a[i - 1]
      modifies a, last`pusher
      ensures SlotsLinked(a, i + 1) && fresh(a[i])
      ensures forall j | 0 <= j < i :: a[j] == old(a[j])
      ensures a[i].parent == last
    {
      var e := new CallStackElt(this, i, last);
      a[i] := e;
      assert forall j | 0 <= j < i - 1 :: a[j].index != last.index;
      last.pusher := new StackPusher(e);
    }

    /** The first two steps of `doPush`: when e is the last slot, five slots are
        appended, so that e has a pusher; then e becomes the current frame. */
    method MakeCurrent(e: CallStackElt)
      requires Valid() && e in stackElts[..]
      modifies this`stackElts, this`curr, LastFrame()`pusher
      ensures Valid() && curr == e && e.pusher != null
      ensures old(e.pusher) != null ==> stackElts == old(stackElts)
      ensures old(e.pusher) == null ==> stackElts.Length == old(stackElts.Length) + DEFAULT_ALLOC_INCR_STACK_LEN
      ensures stackElts[..old(stackElts.Length)] == old(stackElts[..])
      ensures forall i | old(stackElts.Length) <= i < stackElts.Length :: fresh(stackElts[i])
    {
      ghost var k :| 0 <= k < stackElts.Length && stackElts[k] == e;
      if e.pusher == null {
        ReallocStackEltArray(stackElts.Length + DEFAULT_ALLOC_INCR_STACK_LEN);
        assert stackElts[k] == e && k < stackElts.Length - 1;
      }
      curr := e;
    }

    /** `doPush(e)`: grows the array by five slots when e is the last slot, so that
        the new current frame has a pusher, then stamps e's start times. */
    method DoPush(e: CallStackElt, clocks: Clocks) returns (popper: StackPopper)
      requires Valid() && e in stackElts[..]
      modifies this`stackElts, this`curr, e`startTime, e`threadUserStartTime, e`threadCpuStartTime, LastFrame()`pusher
      ensures Valid() && curr == e && e.pusher != null
      ensures popper == e.popper && popper.callStackElt == e
      ensures e.startTime == clocks.time && e.threadUserStartTime == clocks.userTime && e.threadCpuStartTime == clocks.cpuTime
      ensures old(e.pusher) != null ==> stackElts == old(stackElts)
      ensures old(e.pusher) == null ==> stackElts.Length == old(stackElts.Length) + DEFAULT_ALLOC_INCR_STACK_LEN
      ensures stackElts[..old(stackElts.Length)] == old(stackElts[..])
      ensures forall i | old(stackElts.Length) <= i < stackElts.Length :: fresh(stackElts[i])
    {
      MakeCurrent(e);
      e.OnPushSetStartTime(clocks);
      popper := e.popper;
    }

    /** `doPushWithParentStartTime(e)`: as `doPush`, but e's start times are copied
        from its parent. */
    method DoPushWithParentStartTime(e: CallStackElt) returns (popper: StackPopper)
      requires Valid() && e in stackElts[..] && e.parent != null
      modifies this`stackElts, this`curr, e`startTime, e`threadUserStartTime, e`threadCpuStartTime, LastFrame()`pusher
      ensures Valid() && curr == e && e.pusher != null
      ensures popper == e.popper && popper.callStackElt == e
      ensures e.startTime == old(e.parent.startTime) && e.threadUserStartTime == old(e.parent.threadUserStartTime)
      ensures e.threadCpuStartTime == old(e.parent.threadCpuStartTime)
      ensures old(e.pusher) != null ==> stackElts == old(stackElts)
      ensures old(e.pusher) == null ==> stackElts.Length == old(stackElts.Length) + DEFAULT_ALLOC_INCR_STACK_LEN
      ensures stackElts[..old(stackElts.Length)] == old(stackElts[..])
      ensures forall i | old(stackElts.Length) <= i < stackElts.Length :: fresh(stackElts[i])
    {
      MakeCurrent(e);
      e.OnPushSetParentStartTime();
      popper := e.popper;
    }

    /** `doPop(e)`: the parent of e becomes current and e's end times are stamped.
        The Java method does not check that e is the current frame; callers here must
        pop the current frame. */
    method DoPop(e: CallStackElt, clocks: Clocks)
      requires Valid() && e == curr
      modifies this`curr, e`threadCpuEndTime, e`threadUserEndTime, e`endTime
      modifies e`progressExpectedCount, e`progressIndex, e`progressMessage
      ensures Valid() && curr == e.parent
      ensures e.endTime == clocks.time && e.threadUserEndTime == clocks.userTime && e.threadCpuEndTime == clocks.cpuTime
      ensures e.progressExpectedCount == 0 && e.progressIndex == 0 && e.progressMessage == None
    {
      ghost var k :| 0 <= k < stackElts.Length && stackElts[k] == e;
      assert k > 0 ==> stackElts[k - 1] == e.parent;
      curr := e.parent;
      e.OnPopSetEndTime(clocks);
    }
  }
}
