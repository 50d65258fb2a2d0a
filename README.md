# FieldPong core in Dafny

FieldPong is a Pong-like XNA game. Every object on the field is an **actor**: a sprite, a Farseer
physics body and geom, and a fixed list of **behaviors**. The **actor manager** owns them. It keeps
named templates, the live actors and the actors created during the current frame, and runs each
frame in three phases:

1. Sweep out the dead.
2. Update each survivor's behaviors.
3. Promote the newly created actors.

This project models that framework and the small state machines built on it:

- **Paddle firing.** The paddle controllers' cooldown timers limit the fire rate. Each gravity ball
  or bullet is cloned from a template. A bullet's collide-with mask has the firer's categories
  cleared.
- **Game-pad controller.** It chooses between single bullets and sprays, and keeps a vibration
  latch running after each gravity ball.
- **Timed expiry.** A behavior fades its actor in and out, then kills it.
- **Confinement.** A cache holds four wall geoms per rectangle, built once. Each confined actor ORs
  its categories into the walls' masks.
- **Mass-spring grid.** It covers the grid's integer layout, its in-place, x-major interior update,
  and its velocity-only disturbances.
- **Sprite animation.** It covers frame stepping, the accumulator-driven advance, and the
  name-to-animation dictionary.
- **`LineBatch`.** A fixed 512-slot vertex buffer, written by its line-drawing calls.

Each source file is one module, and its classes are Dafny classes with `modifies` frames:

| Source file | Module |
|---|---|
| `Actor.cs` and `ActorManager.cs` | `Actors` |
| `PaddleController.cs` | `Paddles` |
| `GamePadPaddleController.cs` | `GamePad` |
| `LiveTemporarilyBehavior.cs` | `Expiry` |
| `ConstrainToRectangleBehavior.cs` | `Confinement` |
| `MassSpringGrid.cs` | `Springs` |
| `Sprite.cs` | `Sprites` |
| `LineBatch.cs` | `Lines` |

Shared value types live in separate modules:

- `Xna` holds C#'s truncating integer division, `Rectangle`, `Vector2` over the reals, and
  `TimeSpan` as integer ticks.
- `Physics` holds the Farseer body and geom handles, with collision masks as sets of bit
  positions.
- `Errors` holds exceptions as `Result` and `Outcome` values.

A method that throws in C# returns `Err`/`Fail` here. Its callers stop and pass the error on, as the
uncaught exception would. Four kinds of outside input become parameters of the model:

- **Behavior effects.** A behavior's update affects the manager only by spawning templates or
  killing its own actor. `ActorManager.Update` takes these effects as a function
  `plan: Behavior -> seq<Effect>`.
- **Time.** The elapsed game time is passed in as ticks.
- **Pad input.** The pad state arrives as arguments, and the `SetVibration` strengths come back as
  results.
- **Floating-point helpers.** Vector normalisation and the damping multiplier
  `Math.Exp(-elapsedTime * springDamping)` are passed in as functions or values.

`ConstrainToRectangleBehavior.Update` does nothing. Its model is a method with no `modifies`
clause, so the frame rules alone prove that it changes no state.

## Model

| member | source | states |
|---|---|---|
| Xna.Div | FieldPong/Game/ConstrainToRectangleBehavior.cs:87 | C#'s int division: it matches Euclidean division for a non-negative dividend and positive divisor, and the quotient's sign follows the operands' signs. |
| Physics.SetBits | FieldPong/Game/ConstrainToRectangleBehavior.cs:63 | `m \| b`: every bit of `b` is set, every bit of `m` is kept, and no other bit appears. |
| Physics.ClearBits | FieldPong/Game/PaddleController.cs:136 | `m & ~b`: the result shares no bit with `b`, and keeps every other bit of `m` and nothing more. |
| Actors.Clamp | FieldPong/Game/Actor.cs:132 | The stored alpha always lies in [0, 255]. An in-range value is kept, a negative one becomes 0, and one above 255 becomes 255. |
| Actors.Behavior.Clone | FieldPong/Game/Actor.cs:69-72 | The memberwise clone is a new behavior of the same run-time type, with the same owner. |
| Actors.Actor.constructor | FieldPong/Game/Actor.cs:184-188 | A new actor owns exactly the behaviors given. It starts alive, fully opaque (alpha 255), with no physics, and with no kill or initialize yet. |
| Actors.Actor.WithStaticSprite | FieldPong/Game/Actor.cs:204-211 | As the plain constructor, plus a new static sprite whose only animation "defaultAnim" is current and has the given size. |
| Actors.Actor.SetAlpha | FieldPong/Game/Actor.cs:127-134 | The alpha setter stores the clamped value. |
| Actors.Actor.Kill | FieldPong/Game/Actor.cs:303-314 | The actor is dead afterwards. Each call removes its physics once more (`kills` grows by one); nothing sets it alive again. |
| Actors.Actor.GetBehavior | FieldPong/Game/Actor.cs:244-260 | It throws ArgumentException exactly when the type is not a strict subclass of ActorBehavior. Otherwise it returns null exactly when no behavior has that exact type, and else the first one that does. |
| Actors.Actor.Clone | FieldPong/Game/Actor.cs:265-298 | It fails with NullReference exactly when the template has no body or geom. Otherwise the clone is new and alive with alpha 255. Its behaviors are new and pairwise distinct, with the same length, types and order as the original's. Each is owned by the clone and initialized in list order. The clone shares the sprite, and gets a new body and a geom copying the template's masks. |
| Actors.Actor.Update | FieldPong/Game/Actor.cs:221-235 | Every behavior's update runs exactly once, in list order. The actor is dead afterwards exactly when it was dead before or a behavior killed it. The pending list grows by a clone of each template asked for, in order. It fails when one of those templates cannot be instantiated. Otherwise the outcome is that of drawing: NullReference for a missing sprite, current animation or body, and ArgumentOutOfRange for a stale frame index, in the order the source reaches them. |
| Actors.Actor.RunBehavior | FieldPong/Game/Actor.cs:226 | One behavior's update applies its effects in order: each spawn queues one clone and a kill kills the owner. It stops at the first template that cannot be instantiated. |
| Actors.FirstIndex | FieldPong/Game/ActorManager.cs:44 | The position `List.Remove` searches for: it holds the actor, and no earlier position does. |
| Actors.RemoveFirst | FieldPong/Game/ActorManager.cs:44 | `List.Remove`: an absent actor leaves the list unchanged. Otherwise only its first occurrence is removed, and the entries before and after it keep their order. |
| Actors.SurvivorsMembers | FieldPong/Game/ActorManager.cs:34-45 | The survivors of a list are exactly its live members, and never more than the list. |
| Actors.DeadMembers | FieldPong/Game/ActorManager.cs:34-40 | The collected dead are exactly the list's dead members. |
| Actors.RemoveDeadKeepsSurvivors | FieldPong/Game/ActorManager.cs:42-45 | Removing a dead actor's first occurrence keeps the survivors, and removes that occurrence from the dead list. |
| Actors.NoDeadAllSurvive | FieldPong/Game/ActorManager.cs:42-47 | A list without dead actors is its own list of survivors. |
| Actors.WithBehavior | FieldPong/Game/ActorManager.cs:128-138 | The selected actors come from the list and each has the behavior type. Every list actor with that type is selected. |
| Actors.RemoveEach | FieldPong/Game/ActorManager.cs:42-45 | Removing each collected dead actor in turn leaves exactly the survivors, in their order. |
| Actors.KillAll | FieldPong/Game/ActorManager.cs:77-85 | Every listed actor is dead afterwards, and is killed once per occurrence. |
| Actors.ActorManager.constructor | FieldPong/Game/ActorManager.cs:19-21 | A new manager has no templates, no live actors and no pending actors. |
| Actors.ActorManager.Update | FieldPong/Game/ActorManager.cs:30-64 | After a frame, no actor dead at its start is live, and the survivors keep their order. Each survivor's behaviors ran once, in order. The live list then holds the survivors, then the old pending actors, then a new clone of each template spawned this frame, in order, and pending is empty. Survivors killed this frame stay listed but dead. The frame fails after phase 1 exactly when a template spawned this frame cannot be instantiated or a survivor cannot be drawn. No actor is ever both live and pending. |
| Actors.ActorManager.UpdateSurvivors | FieldPong/Game/ActorManager.cs:49-63 | Phases 2 and 3 on the swept list: the same promises as `Update`, stated against the survivors. |
| Actors.ActorManager.UpdateNext | FieldPong/Game/ActorManager.cs:51-54 | One step of phase 2: a failure names a spawned template that cannot be instantiated or an actor that cannot be drawn. A success extends the tracked prefix by one drawable actor. |
| Actors.AllDrawnExtend | FieldPong/Game/ActorManager.cs:51-54 | A drawable prefix followed by a drawable actor is a drawable prefix. |
| Actors.ActorManager.SweepDead | FieldPong/Game/ActorManager.cs:32-47 | Phase 1: the live list becomes exactly its survivors, in order. |
| Actors.ActorManager.CollectDead | FieldPong/Game/ActorManager.cs:34-40 | The collected list is the dead live actors, in live order. |
| Actors.ActorManager.UpdateLive | FieldPong/Game/ActorManager.cs:51-54 | Phase 2: each live actor's behaviors run once, in list order. It succeeds exactly when every template spawned can be instantiated and every live actor can be drawn. Every spawned clone is appended to pending and no earlier pending actor is lost. An actor is dead afterwards exactly when it was dead or killed. Actors spawned here are not updated. |
| Actors.ActorManager.Promote | FieldPong/Game/ActorManager.cs:58-63 | Phase 3: the pending actors are appended to the live list in order, and pending is emptied. |
| Actors.ActorManager.AddActorTemplate | FieldPong/Game/ActorManager.cs:96-99 | The name now maps to the new template, overwriting any old one, and every other name is unchanged. |
| Actors.ActorManager.InstantiateTemplate | FieldPong/Game/ActorManager.cs:104-114 | An unregistered name throws ArgumentException and leaves pending unchanged. A registered one appends exactly one new clone of its template to pending and returns it. The live list is never touched. |
| Actors.ActorManager.FindActorsWithBehavior | FieldPong/Game/ActorManager.cs:119-139 | It throws for a type that is not a strict ActorBehavior subclass. Otherwise it returns, in live order, exactly the live actors with a behavior of that exact type, dead or not. |
| Actors.ActorManager.Unload | FieldPong/Game/ActorManager.cs:73-91 | Every live and pending actor is killed (once per listing), and all three collections end empty. |
| Paddles.RateLimit | FieldPong/Game/PaddleController.cs:146-155 | Over any run of frames and attempts, each allowed shot costs a whole interval. So shots times interval, plus the final timer, never exceed the starting timer plus the time that has passed. |
| Paddles.FirstShotThenOnePerInterval | FieldPong/Game/PaddleController.cs:26-30 | From a fresh timer the first shot is allowed at once. After that there is at most one shot per interval of elapsed time. |
| Paddles.PaddleController.constructor | FieldPong/Game/PaddleController.cs:26-42 | Both timers start at their intervals (4 s, and 100 ms as 0.1 s rounds), so both kinds can fire at once. |
| Paddles.PaddleController.Clone | FieldPong/Game/Actor.cs:69-72 | The clone copies both timers, the manager and the owner. |
| Paddles.PaddleController.Update | FieldPong/Game/PaddleController.cs:183-189 | Both timers grow by the elapsed time. |
| Paddles.PaddleController.ShootGravityBall | FieldPong/Game/PaddleController.cs:102-124 | It returns false exactly when the timer is below the interval, and then spawns nothing and keeps the timer. Otherwise the timer resets to zero and exactly one "Gravity Ball" clone is queued. It returns true unless the template or the paddle's body is missing, which throws. The bullet timer is untouched. |
| Paddles.PaddleController.ShootBullet | FieldPong/Game/PaddleController.cs:129-141 | It queues one "Bullet" clone. The bullet's collide-with mask is the template's with every category of the firer cleared, so none of those bits remains and every other bit of the clone's mask is kept. In the model the clone's mask is the template's, because the clone's `Initialize` hooks are not run. |
| Paddles.PaddleController.SparesFirerAfterHooks | FieldPong/Game/PaddleController.cs:136 | Whatever bits the clone's hooks OR in first, the cleared mask shares no bit with the firer and keeps every template bit the firer lacks. |
| Paddles.PaddleController.SpareFirer | FieldPong/Game/PaddleController.cs:136 | The compound-assignment clear of the firer's categories. |
| Paddles.PaddleController.ShootSingleBullet | FieldPong/Game/PaddleController.cs:146-155 | Exactly when the timer has reached the interval: the timer resets and one bullet sparing the firer is queued. Otherwise nothing happens. The gravity-ball timer is untouched. |
| Paddles.PaddleController.ShootTwoMore | FieldPong/Game/PaddleController.cs:170-172 | After the first bullet of a spray, two more are queued, so three clones spare the firer. |
| Paddles.PaddleController.ShootBulletSpray | FieldPong/Game/PaddleController.cs:160-174 | Exactly when the timer has reached the interval: one reset, and three bullet clones queued, each sparing the firer. Otherwise nothing happens. The gravity-ball timer is untouched. |
| Expiry.FadeEnds | FieldPong/Game/LiveTemporarilyBehavior.cs:52-58 | A completed fade clamps to fully opaque (in) or fully transparent (out). |
| Expiry.FadeMidway | FieldPong/Game/LiveTemporarilyBehavior.cs:52-58 | During a fade both alphas lie in [0, 255] and sum to 255. |
| Expiry.ExpiryPersists | FieldPong/Game/LiveTemporarilyBehavior.cs:61-66 | Once expired, every later update kills again. |
| Expiry.FadeOutPersists | FieldPong/Game/LiveTemporarilyBehavior.cs:55-66 | Once the fade-out has begun it runs on every later update. |
| Expiry.FadeInEnds | FieldPong/Game/LiveTemporarilyBehavior.cs:49-53 | A finished fade-in never runs again. |
| Expiry.RunTime | FieldPong/Game/LiveTemporarilyBehavior.cs:66 | After a run of updates, time passed is the start plus the total elapsed. |
| Expiry.KilledExactlyWhen | FieldPong/Game/LiveTemporarilyBehavior.cs:61-66 | The update after any prefix of frames kills exactly when the time of those frames carries the time passed beyond the lifetime. |
| Expiry.KilledWithinLifetime | FieldPong/Game/LiveTemporarilyBehavior.cs:61-66 | With at least one tick per frame, the actor is killed within the frames its remaining lifetime allows. |
| Expiry.LiveTemporarilyBehavior.constructor | FieldPong/Game/LiveTemporarilyBehavior.cs:18-37 | It keeps the lifetime and fade duration, and starts all three counters at zero. |
| Expiry.LiveTemporarilyBehavior.Update | FieldPong/Game/LiveTemporarilyBehavior.cs:47-67 | The counters advance by `Step`. The parent's alpha becomes the clamped `AlphaWritten` value, or stays. Kill runs exactly when the time passed before this update exceeds the lifetime. Without a parent, the first branch that runs throws after advancing its own timer. |
| GamePad.LatchStep | FieldPong/Game/GamePadPaddleController.cs:75-97 | Vibration switches on only when X fires a gravity ball. Strength 0.5 is sent exactly when X is held while vibrating. Once vibrating for the interval, the latch resets and strength 0 is sent. A latch that is off and not triggered is unchanged. |
| GamePad.LatchStepValid | FieldPong/Game/GamePadPaddleController.cs:86-97 | A frame keeps the latch timer in [0, interval), and zero while off. |
| GamePad.QuietRun | FieldPong/Game/GamePadPaddleController.cs:86-97 | Without new gravity balls, a vibrating latch's timer is its start plus the elapsed time. |
| GamePad.QuietVibrationEnds | FieldPong/Game/GamePadPaddleController.cs:86-97 | Half a second without a new gravity ball always stops the vibration. |
| GamePad.BulletNames | FieldPong/Game/GamePadPaddleController.cs:69-72 | An aim fires either one bullet or a spray of three, and every one of them is the "Bullet" template. |
| GamePad.GamePadPaddleController.constructor | FieldPong/Game/GamePadPaddleController.cs:18-47 | It starts at level 1, not vibrating, with both fire timers ready. |
| GamePad.GamePadPaddleController.Aim | FieldPong/Game/GamePadPaddleController.cs:69-72 | A single bullet below level 20, a spray from it on, with the fire-timer rules of the paddle controller. |
| GamePad.GamePadPaddleController.Stick | FieldPong/Game/GamePadPaddleController.cs:64-73 | It fires only when the right stick's length reaches 0.3f. |
| GamePad.GamePadPaddleController.Buttons | FieldPong/Game/GamePadPaddleController.cs:75-97 | X attempts a gravity ball. The latch then moves by `LatchStep` and the vibration commands are its output. |
| GamePad.GamePadPaddleController.Update | FieldPong/Game/GamePadPaddleController.cs:56-98 | The fire timers advance first. Without a paddle body the frame throws. Then comes the stick shot for this level, then the X shot and the vibration latch, in that order. The pending list grows by exactly the clones those shots queue. |
| Confinement.CollisionBorders.constructor | FieldPong/Game/ConstrainToRectangleBehavior.cs:18-26 | It keeps the body, the four geoms and their offsets. |
| Confinement.Union | FieldPong/Game/ConstrainToRectangleBehavior.cs:66-69 | The union of many actors' categories holds theirs and no more. |
| Confinement.RegisteredUnion | FieldPong/Game/ConstrainToRectangleBehavior.cs:66-69 | Masks only grow. Whatever the order of registration, each wall holds its old bits plus every registered actor's categories. |
| Confinement.OffsetsMirror | FieldPong/Game/ConstrainToRectangleBehavior.cs:89-105 | The left and right offsets, and the top and bottom ones, are mirror images. |
| Confinement.WallCentres | FieldPong/Game/ConstrainToRectangleBehavior.cs:87-105 | The border body is centred inside the rectangle. The left and top walls sit half a wall outside it. The right and bottom walls do too for an even size, and one unit further in for an odd size. |
| Confinement.BorderCache.constructor | FieldPong/Game/ConstrainToRectangleBehavior.cs:35 | The static dictionary starts empty. |
| Confinement.ConstrainToRectangleBehavior.constructor | FieldPong/Game/ConstrainToRectangleBehavior.cs:47-53 | It keeps the rectangle and category, and has not registered yet. |
| Confinement.ConstrainToRectangleBehavior.BuildBorders | FieldPong/Game/ConstrainToRectangleBehavior.cs:77-121 | It adds exactly one entry for the rectangle and counts one build. Its walls are four new, distinct geoms on one body, centred and offset as the rectangle dictates. They are in the behavior's category and collide with nothing. With no parent actor it throws and changes nothing. |
| Confinement.ConstrainToRectangleBehavior.Initialize | FieldPong/Game/ConstrainToRectangleBehavior.cs:55-72 | The borders are built exactly when the rectangle is not yet cached, so each rectangle is built at most once; newly built walls are fresh geoms. If the walls were just built and the actor has no geom, they stay cached and collide with nothing. The actor's collide-with gains the behavior's category and keeps its other bits. All four walls gain the actor's categories by OR. The actor's own categories are unchanged, and so are a cached rectangle's wall categories. The flag is set. Without a parent or geom it throws and the flag stays. |
| Confinement.ConstrainToRectangleBehavior.RegisterParent | FieldPong/Game/ConstrainToRectangleBehavior.cs:62-71 | The actor's collide-with gains the behavior's category and the four walls' masks gain the actor's categories, both by OR. The actor's categories and the walls' categories are untouched. Without a parent or geom it throws. |
| Confinement.NewBorders | FieldPong/Game/ConstrainToRectangleBehavior.cs:79-112 | The four new walls: distinct, on one body, in the category, and colliding with nothing. |
| Confinement.Register | FieldPong/Game/ConstrainToRectangleBehavior.cs:66-69 | Each wall's collide-with gains the geom's categories, and their categories are kept. |
| Lines.LineBatch.constructor | FieldPong/Graphics/LineBatch.cs:62 | A 512-slot array with both counters at zero. |
| Lines.LineBatch.Pending | FieldPong/Graphics/LineBatch.cs:173 | The pending vertices number exactly twice the line count that End submits. |
| Lines.LineBatch.Begin | FieldPong/Graphics/LineBatch.cs:105-110 | Both counters reset to 0. The array is not cleared. |
| Lines.LineBatch.End | FieldPong/Graphics/LineBatch.cs:155-178 | Nothing is submitted when no vertex is queued. Otherwise the first `lineCount` lines go out. The counters are never reset. |
| Lines.LineBatch.DrawLine | FieldPong/Graphics/LineBatch.cs:137-150 | It flushes (End, Begin) exactly when the index has reached 510. It then writes start and end at the index and the next slot, changes no other slot, and adds 2 and 1 to the counters. The index stays within the array, equals twice the line count, and no queued vertex is lost. |
| Lines.LineBatch.DrawLineBetween | FieldPong/Graphics/LineBatch.cs:115-120 | As `DrawLine` with the two z = 0 vertices of one colour: below slot 510 it writes the old index and the next slot and adds 2 and 1 to the counters, with nothing submitted; at 510 it first submits the pending lines and restarts at slot 0. Every queued vertex is kept, in order. |
| Lines.LineBatch.DrawLineShaded | FieldPong/Graphics/LineBatch.cs:125-130 | As `DrawLine` with the start vertex in the start colour and the end vertex in the end colour, both at z = 0: the same flush rule at 510, the same two-slot write and counter updates, and every queued vertex kept in order. |
| Springs.AxisLayout | FieldPong/Game/MassSpringGrid.cs:80-102 | Along one axis, the spare units are split with at most one more on the far side, and every node's cell lies within the extent. |
| Springs.LayoutInside | FieldPong/Game/MassSpringGrid.cs:80-102 | Every initial node lies inside the bounds, at least one spacing short of the right and bottom edges. |
| Springs.LayoutBalanced | FieldPong/Game/MassSpringGrid.cs:116-123 | In the initial layout each interior node is exactly the average of its eight neighbours. |
| Springs.RelaxAtRest | FieldPong/Game/MassSpringGrid.cs:120-130 | A node at rest at its neighbours' average stays put. |
| Springs.Falloff | FieldPong/Game/MassSpringGrid.cs:192 | The per-node push is at most 100, and is the inverse-square value whenever that is below 100. |
| Springs.TwistPerpendicular | FieldPong/Game/MassSpringGrid.cs:203-209 | A twist pushes at right angles to the node's direction from the centre. |
| Springs.CreateGrid | FieldPong/Game/MassSpringGrid.cs:68-103 | It builds an n-by-n array of nodes at rest. Node (x, y) is at (startX + x·dx, startY + y·dy), with truncated spacings and margins split on both sides. |
| Springs.PlaceNodes | FieldPong/Game/MassSpringGrid.cs:80-102 | The walking `px`/`py` counters put every node at its layout position. |
| Springs.SweepInterior | FieldPong/Game/MassSpringGrid.cs:116-132 | Only interior nodes change. Each is stepped from its old state, using the already-updated positions of the neighbours before it in x-major order and the old positions of the rest. |
| Springs.SweepColumns | FieldPong/Game/MassSpringGrid.cs:116-132 | The outer loop over columns 1 .. n-2 under the same promise. |
| Springs.SweepColumn | FieldPong/Game/MassSpringGrid.cs:118-131 | Column x is swept in place. Nothing outside its interior changes. |
| Springs.MassSpringGrid.constructor | FieldPong/Game/MassSpringGrid.cs:54-63 | It keeps the parameters, and lays the grid out as CreateGrid does. |
| Springs.MassSpringGrid.Update | FieldPong/Game/MassSpringGrid.cs:112-133 | Edge rows and columns are unchanged. Every interior node is relaxed in place, x-major, against the mixed old and new neighbour positions. Every interior node ends with zero force. |
| Springs.MassSpringGrid.Nudge | FieldPong/Game/MassSpringGrid.cs:189-193 | Every node, edges included, gets a velocity change computed from its position. Positions and forces are unchanged. |
| Springs.MassSpringGrid.ApplyDisturbance | FieldPong/Game/MassSpringGrid.cs:187-194 | The push away from the point, capped at 100, changes velocities only. |
| Springs.MassSpringGrid.TwistGrid | FieldPong/Game/MassSpringGrid.cs:199-211 | The perpendicular push around the centre, capped at 100, changes velocities only. |
| Sprites.StepIndex | FieldPong/Graphics/Sprite.cs:263-288 | An in-range index stays in range. A step moves by one in the animation's direction, except that a repeating animation wraps around at either end. |
| Sprites.ForwardRepeatCycles | FieldPong/Graphics/Sprite.cs:265-275 | A repeating forward animation visits the frames cyclically: after n steps it is at (i + n) mod count. |
| Sprites.BackwardRepeatCycles | FieldPong/Graphics/Sprite.cs:277-288 | A repeating backward animation cycles in reverse: after n steps it is at (i - n) mod count. |
| Sprites.ForwardOnceHolds | FieldPong/Graphics/Sprite.cs:265-275 | Without repeat, forward play stops on the last frame. |
| Sprites.BackwardOnceHolds | FieldPong/Graphics/Sprite.cs:277-288 | Without repeat, backward play stops on the first frame. |
| Sprites.Animation.constructor | FieldPong/Graphics/Sprite.cs:180-185 | A new animation is running, forward, repeating, has no frames, and has the given size. |
| Sprites.Animation.Update | FieldPong/Graphics/Sprite.cs:194-208 | A paused or empty animation is unchanged. A stale index throws ArgumentOutOfRange after the elapsed time is added. Otherwise it advances at most one frame, and only when the accumulator strictly exceeds the current frame's delay. It then pays the delay of the new frame. |
| Sprites.Animation.Reset | FieldPong/Graphics/Sprite.cs:213-223 | With frames, it rewinds to frame 0 with a zero accumulator. Without frames it does nothing. |
| Sprites.Animation.UpdateAnimationFrame | FieldPong/Graphics/Sprite.cs:263-288 | The index takes one `StepIndex` step. |
| Sprites.Animation.AddFrame | FieldPong/Graphics/Sprite.cs:299-303 | The frame and its texture are appended together, so the lists stay aligned. |
| Sprites.Animation.RemoveFrame | FieldPong/Graphics/Sprite.cs:309-313 | A valid index removes the frame and its texture together. Any other throws and changes nothing. |
| Sprites.Sprite.constructor | FieldPong/Graphics/Sprite.cs:395-397 | No animations, and none current. |
| Sprites.Sprite.AddAnimation | FieldPong/Graphics/Sprite.cs:470-473 | A new name is added. A name already in use throws and changes nothing. |
| Sprites.Sprite.RemoveAnimation | FieldPong/Graphics/Sprite.cs:481-494 | An unknown name throws and changes nothing. Otherwise the name is removed, and removing the current animation leaves none current. |
| Sprites.Sprite.SetCurrentAnimation | FieldPong/Graphics/Sprite.cs:500-508 | The named animation becomes current. An unknown name throws and changes nothing. |
| Sprites.Sprite.Update | FieldPong/Graphics/Sprite.cs:441-448 | With no current animation nothing happens. Otherwise the current animation moves exactly as `Animation.Update` describes, with the same outcome, and only its index and accumulator change. |
| Sprites.CreateStatic | FieldPong/Graphics/Sprite.cs:404-433 | The sprite has exactly one animation, "defaultAnim". It is current, with one one-second frame of the texture, and has the given size. |

## Left out

- Farseer physics is a foreign library. Bodies and geoms are handles, and only the geom's collision masks are state. The model leaves out:
  - positions, velocities, forces and torques (`Move`, `Spin`, shot velocities and offsets);
  - restitution and the simulator's `Add`/`Remove`, which `Kill` records only as a counter.
- A geom copied by `GeomFactory.CreateGeom(body, geom)` is assumed to copy both masks. A new geom is assumed to start in every category and to collide with every category.
- `Actor.Clone` is assumed to throw NullReference when the template has no body or geom, because the factories dereference their argument.
- Masks are modelled as sets of the 31 flag-bit positions rather than as 32-bit words. OR and AND-NOT become union and difference, which is exact for the flag enum.
- Behavior updates act on the manager only through the effects `plan` gives, namely spawns and kills. Their other work is modelled by each behavior's own module.
- `ActorBehavior.Initialize` is recorded, not run, inside `Actor.Clone`. The confinement behavior's `Initialize` is modelled separately.
- Paddles.PaddleController.ShootBullet: its mask equality holds for the model's clone, whose `Initialize` hooks do not run. In the game the bullet template carries a confinement behavior, whose `Initialize` ORs its wall category into the clone's collide-with mask before the firer's bits are cleared. So the game's bullet also collides with that category. `SparesFirerAfterHooks` states what survives in that case.
- Actors.Actor.Update: the exceptions of the drawing step are modelled, but not its effect on the sprite. The shared animation's index and accumulator do not advance, and the draw call is rendering. Clones share one sprite, so in the source each actor's update advances the same animation once more.
- Game.Services lookups are left out: the simulator is reached as a global.
- Game-pad input arrives as parameters (elapsed ticks, the right stick's length, the X button). `SetVibration` calls are returned in order. The normalised aim direction and the ±22.5° spray rotation are left out as float vector maths. `Level` is a plain field.
- GamePad.GamePadPaddleController.Update: on failure the contract does not say which clones were already queued.
- Expiry.LiveTemporarilyBehavior.constructor: requires a positive fade duration, the same restriction as Update below.
- Expiry.LiveTemporarilyBehavior.Update: requires a positive fade duration, because the model divides reals by it. The only caller passes 0.5 s (`FieldPong/Game Screens/GameplayScreen.cs`, line 285). At 0 the source's double division gives infinity or NaN rather than an exception, and that behaviour is not modelled. The comparisons use exact ticks rather than `TotalSeconds` doubles, and alpha is computed over the reals without float rounding.
- Elapsed time is not required to be non-negative, but the persistence lemmas assume it is. 64-bit tick overflow is not modelled.
- Confinement.ConstrainToRectangleBehavior.Initialize: requires that the actor's geom is not one of the cached walls. The source never makes a wall an actor's geom.
- The border cache is passed to the behavior as an object instead of being a static field. Wall restitution and the rectangle body's size and mass are left out.
- Springs.Falloff: at distance zero it gives the cap of 100. The source divides by zero there, giving +∞ (so 100) for a positive magnitude, but −∞ or NaN otherwise.
- `Vector2.Normalize` is a parameter `unit`, and the damping multiplier `Math.Exp(-elapsedTime * springDamping)` is a parameter `damping`. Coordinates are reals, with no float rounding.
- Grid nodes are stored by value in the array, since the source never shares a `Node` between cells. The `Nodes` property, which exposes the array, is left out.
- Springs.MassSpringGrid.constructor: requires `gridSize > 0` and a non-zero node mass. The source divides by both.
- `MassSpringGrid.Draw`, `Animation.Draw`, `Sprite.Draw` and `LineBatch.End`'s render passes are rendering. End is modelled as one submission of the pending vertices.
- The `LineBatch` constructor's null-device check, `SetProjection` and `Dispose` touch only the graphics device.
- Content loading is replaced by a `Texture` value passed to `AddFrame` and `CreateStatic`. `Animation.Running`, `Direction` and `Repeat` are plain fields.
