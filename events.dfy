/**
 * Effects the model does not compute but whose order matters: native window and drawing calls, hooks
 * whose bodies are outside the model, and markers for the dispatcher phases of a tick.
 */
module Events {
  import opened JavaLang

  datatype Event =
      /** The dispatcher bucket of this rank is about to be processed. */
    | Phase(rank: nat)
      /** A dispatcher operation's work ran; `status` is the operation's status while it ran. */
    | WorkRan(work: nat, status: bv32)
      /** A change callback the model does not know was called. */
    | CallbackInvoked(callback: nat, oldValue: Value, newValue: Value)
      /** `UIElement.validate(valid)`, which is not part of this model. */
    | Validated(element: object, valid: bool)
      /** `super.onLayoutInvalidated()` / `super.onRenderInvalidated()`, which are not part of this model. */
    | LayoutInvalidatedHook(element: object)
    | RenderInvalidatedHook(element: object)
      /** `mainWindow.onAppTick()`. */
    | WindowTick
      /** `processMessage(message)` for the message at this index of the queue. */
    | MessageVisited(index: nat)
    | InputsPre
    | InputsPost
      /** `layoutManager.updateLayout()` is called; whether the manager was active at that point. */
    | LayoutUpdate(managerActive: bool)
    | RenderPost
      /** `glClear(...)`. */
    | GlClear
      /** `RenderContext.setActiveWindow(window)`; `false` for null. */
    | SetActiveWindow(present: bool)
    | OpenRender(element: object)
    | BeginRender
    | Render(element: object)
    | CloseRender(element: object)
    | EndRender
    | SwapBuffers
      /** `glfwPostEmptyEvent()`, which wakes the event loop. */
    | PostEmptyEvent
      /** `glfwWaitEvents()`, which blocks until an event arrives. */
    | WaitEvents
      /** `mainWindow.dispose()`. */
    | WindowDisposed
      /** `doShutdownGLFW()`: `glfwTerminate()` and freeing the error callback. */
    | GlfwTerminated

  /** The effects so far, in order. */
  class Trace {
    var events: seq<Event>

    constructor()
      ensures events == []
    {
      events := [];
    }

    method Emit(e: Event)
      modifies this
      ensures events == old(events) + [e]
    {
      events := events + [e];
    }
  }
}
