/**
 * The custom LoadingButton view: a three-state machine (COMPLETED, CLICKED,
 * LOADING) kept in an observed property, a progress animator whose callbacks
 * feed back into the machine, and a drawing that depends on the state.
 *
 * The animator is abstracted: `running` says whether it is started and has
 * neither ended nor been cancelled, `frame` is the index of its current value
 * in `Keyframes`, and one `Tick` is one step from a keyframe to the next.
 * Stated assumptions about the animator library:
 *   - start() begins at the first keyframe and publishes it to the update
 *     listener at once;
 *   - cancel() of a running animator fires onAnimationCancel and NOT
 *     onAnimationEnd; cancel() of an idle animator fires nothing;
 *   - after the last keyframe is published the animator stops and fires
 *     onAnimationEnd.
 */
module LoadingButtonView {

  /** COMPLETED is the resting state the button starts in; CLICKED is
      transient, left at once for LOADING; LOADING runs the progress
      animation. */
  datatype ButtonState = Completed | Clicked | Loading

  /** The calls the button makes on its animator, in order. */
  datatype AnimatorCall = Start | Cancel

  /** The control values the progress animator passes through. */
  const Keyframes: seq<int> := [0, 20, 40, 60, 62, 63, 64, 68, 72, 77, 80, 85, 90, 95, 100]

  /** Index of the last keyframe. */
  const LastFrame: nat := 14

  /** Every element is at most every later one. */
  predicate Sorted(s: seq<int>)
  {
    forall i, j :: 0 <= i <= j < |s| ==> s[i] <= s[j]
  }

  /** The keyframe list runs from 0 to 100 and never decreases, so every
      value the animator publishes lies in [0, 100]. */
  lemma KeyframesFromZeroToHundred()
    ensures |Keyframes| == LastFrame + 1
    ensures Keyframes[0] == 0 && Keyframes[LastFrame] == 100
    ensures Sorted(Keyframes)
    ensures forall i :: 0 <= i < |Keyframes| ==> 0 <= Keyframes[i] <= 100
  {
  }

  class LoadingButton {
    var state: ButtonState
    /** The last value the animator's update listener published. */
    var progress: int
    /** Whether the animator is started and has not yet ended or been cancelled. */
    var running: bool
    /** Index in Keyframes of the animator's current value. */
    var frame: nat
    /** Every start() and cancel() made on the animator, in order. */
    ghost var calls: seq<AnimatorCall>

    /** Well-formedness of the fields, true at every call boundary. */
    ghost predicate Valid()
      reads this
    {
      && 0 <= progress <= 100
      && frame <= LastFrame
      && (running ==> frame < LastFrame && progress == Keyframes[frame])
    }

    /** At rest: the transient CLICKED state has been left, and the
        animator runs exactly while the button is LOADING. */
    ghost predicate Settled()
      reads this
    {
      Valid() && state != Clicked && (running <==> state == Loading)
    }

    /** The button starts COMPLETED with progress 0; setting the initial
        value does not run the observer. */
    constructor ()
      ensures Settled()
      ensures state == Completed && progress == 0 && !running && frame == 0 && calls == []
    {
      state := Completed;
      progress := 0;
      running := false;
      frame := 0;
      calls := [];
    }

    /** The animator's update listener: publishes a value as the progress. */
    method OnAnimationUpdate(value: int)
      modifies this`progress
      ensures progress == value
    {
      progress := value;
    }

    /** The animator's cancel listener: progress drops to exactly 0. */
    method OnAnimationCancel()
      modifies this`progress
      ensures progress == 0
    {
      progress := 0;
    }

    /** valueAnimator.start(). */
    method StartAnimator()
      modifies this`running, this`frame, this`progress, this`calls
      ensures running && frame == 0 && progress == Keyframes[0] == 0
      ensures calls == old(calls) + [Start]
    {
      calls := calls + [Start];
      running, frame := true, 0;
      OnAnimationUpdate(Keyframes[0]);
    }

    /** valueAnimator.cancel(). */
    method CancelAnimator()
      modifies this`running, this`progress, this`calls
      ensures !running
      ensures progress == if old(running) then 0 else old(progress)
      ensures calls == old(calls) + [Cancel]
    {
      calls := calls + [Cancel];
      if running {
        running := false;
        OnAnimationCancel();
      }
    }

    /** The observer of `buttonState`, written as an explicit setter: the new
        value is stored first, then the animator reacts to it. */
    method SetState(s: ButtonState)
      requires Valid()
      modifies this
      decreases if s == Clicked then 1 else 0
      ensures Valid()
      // CLICKED never stays: it re-assigns LOADING before returning
      ensures state == if s == Clicked then Loading else s
      ensures s == Completed ==>
        && !running && frame == old(frame) && calls == old(calls) + [Cancel]
        && progress == (if old(running) then 0 else old(progress))
      ensures s == Loading && old(state) == Loading ==>
        running == old(running) && frame == old(frame) && progress == old(progress) && calls == old(calls)
      ensures s == Loading && old(state) != Loading ==>
        running && frame == 0 && progress == 0 && calls == old(calls) + [Start]
      // the guard compares with the old state CLICKED, so a click always restarts
      ensures s == Clicked ==>
        running && frame == 0 && progress == 0 && calls == old(calls) + [Cancel, Start]
    {
      var previous := state;
      state := s;
      match s
      case Completed =>
        CancelAnimator();
      case Loading =>
        if previous != Loading {
          StartAnimator();
        }
      case Clicked =>
        CancelAnimator();
        SetState(Loading);
    }

    /** The animator's end listener. */
    method OnAnimationEnd()
      requires Valid() && !running
      modifies this
      ensures Valid()
      ensures state == Completed && !running && progress == old(progress) && frame == old(frame)
      ensures calls == old(calls) + [Cancel]
    {
      SetState(Completed);
    }

    /** onClicked(): sets the state to CLICKED. */
    method OnClicked()
      requires Settled()
      modifies this
      ensures Settled()
      ensures state == Loading && running && frame == 0 && progress == 0
      ensures calls == old(calls) + [Cancel, Start]
    {
      SetState(Clicked);
    }

    /** One frame of the animator: moves to the next keyframe and publishes
        it; once the last keyframe is published the animation ends. */
    method Tick()
      requires Settled()
      modifies this
      ensures Settled()
      ensures !old(running) ==>
        state == old(state) && progress == old(progress) && frame == old(frame) && calls == old(calls)
      ensures old(running) ==>
        && frame == old(frame) + 1 && progress == Keyframes[frame]
        && old(progress) <= progress
      ensures old(running) && frame < LastFrame ==>
        state == Loading && running && calls == old(calls)
      ensures old(running) && frame == LastFrame ==>
        state == Completed && !running && progress == 100 && calls == old(calls) + [Cancel]
    {
      if running {
        KeyframesFromZeroToHundred();
        frame := frame + 1;
        OnAnimationUpdate(Keyframes[frame]);
        if frame == LastFrame {
          running := false;
          OnAnimationEnd();
        }
      }
    }
  }

  /** A click followed by the animation running to its end: the progress
      values published are exactly the keyframes, so they never decrease and
      end at 100, and the button ends COMPLETED and draws its completed face. */
  method ClickAndRunToCompletion(width: nat, height: nat, style: ButtonStyle)
    returns (published: seq<int>, final: ButtonState, drawing: seq<DrawOp>)
    ensures published == Keyframes
    ensures Sorted(published) && published[0] == 0 && published[|published| - 1] == 100
    ensures final == Completed
    ensures drawing == [FillRect(0.0, 0.0, width as real, height as real, style.defaultColor),
                        CenteredText(CompletedText, White)]
  {
    var button := new LoadingButton();
    button.OnClicked();
    published := [button.progress];
    while button.running
      invariant button.Settled()
      invariant button.running ==> published == Keyframes[..button.frame + 1]
      invariant !button.running ==> button.state == Completed && published == Keyframes
      decreases LastFrame - button.frame
    {
      button.Tick();
      published := published + [button.progress];
    }
    KeyframesFromZeroToHundred();
    final := button.state;
    drawing := Render(button.state, button.progress, width, height, style);
  }

  /** The fixed colours of the button (from its styled attributes). */
  datatype ButtonStyle = ButtonStyle(defaultColor: int, loadingColor: int, circleColor: int)

  /** Color.WHITE, 0xFFFFFFFF as a signed 32-bit colour int. */
  const White: int := -1

  /** The angle, in degrees, where the progress arc starts. */
  const ArcStart: real := 270.0

  /** The two string resources drawn as the button's text. */
  datatype Label = LoadingText | CompletedText

  /** What one draw pass paints, in order. The arc's and the text's
      placement (text metrics) is not modelled. */
  datatype DrawOp =
    | FillRect(left: real, top: real, right: real, bottom: real, color: int)
    | FillArc(startAngle: real, sweepAngle: real, color: int)
    | CenteredText(text: Label, color: int)

  /** The loading bar's width for a progress in [0, 100]. */
  function BarWidth(progress: int, width: nat): (w: real)
    requires 0 <= progress <= 100
    ensures 0.0 <= w <= width as real
    ensures progress == 0 ==> w == 0.0
    ensures progress == 100 ==> w == width as real
  {
    assert 0.0 <= progress as real / 100.0 <= 1.0;
    progress as real / 100.0 * width as real
  }

  /** The arc's sweep, in degrees, for a progress in [0, 100]. */
  function ArcSweep(progress: int): (sweep: real)
    requires 0 <= progress <= 100
    ensures 0.0 <= sweep <= 360.0
    ensures progress == 0 ==> sweep == 0.0
    ensures progress == 100 ==> sweep == 360.0
  {
    progress as real / 100.0 * 360.0
  }

  /** More progress never draws a shorter bar or a smaller arc. */
  lemma GeometryMonotone(p: int, q: int, width: nat)
    requires 0 <= p <= q <= 100
    ensures BarWidth(p, width) <= BarWidth(q, width)
    ensures ArcSweep(p) <= ArcSweep(q)
  {
    var a, b := p as real / 100.0, q as real / 100.0;
    assert a <= b;
    assert a * width as real <= b * width as real;
  }

  /** A rectangle that covers the whole view. */
  predicate CoversBounds(op: DrawOp, width: nat, height: nat)
  {
    op.FillRect? && op.left == 0.0 && op.top == 0.0 && op.right == width as real && op.bottom == height as real
  }

  /** onDrawButtonLoading. */
  function DrawLoading(progress: int, width: nat, height: nat, style: ButtonStyle): (ops: seq<DrawOp>)
    requires 0 <= progress <= 100
    ensures |ops| == 4
    // the background comes first, in the default colour, over the whole view
    ensures CoversBounds(ops[0], width, height) && ops[0].color == style.defaultColor
    // the bar is a slice of the background anchored at its left edge
    ensures ops[1].FillRect? && ops[1].color == style.loadingColor
    ensures ops[1].left == ops[0].left && ops[1].top == ops[0].top && ops[1].bottom == ops[0].bottom
    ensures ops[0].left <= ops[1].right <= ops[0].right
    ensures progress == 0 ==> ops[1].right == ops[1].left
    ensures progress == 100 ==> CoversBounds(ops[1], width, height)
    // the arc starts at the top and sweeps at most one full turn
    ensures ops[2].FillArc? && ops[2].startAngle == ArcStart && 0.0 <= ops[2].sweepAngle <= 360.0
    ensures ops[2].color == style.circleColor
    // the text is painted last, over the bar and the arc
    ensures ops[3] == CenteredText(LoadingText, White)
  {
    [ FillRect(0.0, 0.0, width as real, height as real, style.defaultColor),
      FillRect(0.0, 0.0, BarWidth(progress, width), height as real, style.loadingColor),
      FillArc(ArcStart, ArcSweep(progress), style.circleColor),
      CenteredText(LoadingText, White) ]
  }

  /** onDrawButtonCompleted. */
  function DrawCompleted(width: nat, height: nat, style: ButtonStyle): (ops: seq<DrawOp>)
    ensures |ops| >= 1 && ops[|ops| - 1] == CenteredText(CompletedText, White)
    // no progress is shown: no arc, and every rectangle is the default background
    ensures forall i :: 0 <= i < |ops| ==> !ops[i].FillArc?
    ensures forall i :: 0 <= i < |ops| && ops[i].FillRect? ==>
      CoversBounds(ops[i], width, height) && ops[i].color == style.defaultColor
  {
    [ FillRect(0.0, 0.0, width as real, height as real, style.defaultColor),
      CenteredText(CompletedText, White) ]
  }

  /** The two faces paint the same background and differ in what lies on
      it: the loading face adds exactly the bar and the arc. */
  lemma FacesShareBackground(progress: int, width: nat, height: nat, style: ButtonStyle)
    requires 0 <= progress <= 100
    ensures DrawLoading(progress, width, height, style)[0] == DrawCompleted(width, height, style)[0]
    ensures |DrawLoading(progress, width, height, style)| == |DrawCompleted(width, height, style)| + 2
  {
  }

  /** onDraw: dispatches on the state. */
  function Render(state: ButtonState, progress: int, width: nat, height: nat, style: ButtonStyle): (ops: seq<DrawOp>)
    requires 0 <= progress <= 100
    ensures |ops| >= 2
    ensures ops[0] == FillRect(0.0, 0.0, width as real, height as real, style.defaultColor)
    ensures ops[|ops| - 1] == CenteredText(if state == Completed then CompletedText else LoadingText, White)
    // the bar and the arc are drawn exactly when the state is not COMPLETED
    ensures |ops| == 4 <==> state != Completed
    ensures state == Completed ==> |ops| == 2
    ensures state != Completed ==>
      && |ops| == 4
      && ops[1].FillRect? && ops[1].right == BarWidth(progress, width)
      && ops[2].FillArc? && ops[2].sweepAngle == ArcSweep(progress)
      && 0.0 <= ops[1].right <= width as real && 0.0 <= ops[2].sweepAngle <= 360.0
  {
    match state
    case Clicked => DrawLoading(progress, width, height, style)
    case Completed => DrawCompleted(width, height, style)
    case Loading => DrawLoading(progress, width, height, style)
  }

  /** A freshly built button draws only its completed face in the default colour. */
  lemma InitialRenderIsCompleted(width: nat, height: nat, style: ButtonStyle)
    ensures Render(Completed, 0, width, height, style)
         == [FillRect(0.0, 0.0, width as real, height as real, style.defaultColor),
             CenteredText(CompletedText, White)]
  {
  }
}
