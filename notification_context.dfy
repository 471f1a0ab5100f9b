/**
  The notification provider (`src/context/NotificationContext.tsx`): one
  notification at a time, shown by `showNotification` and hidden by
  `closeNotification` or by the snackbar's close, except for a click away.
*/
module NotificationContexts {
  import opened Wrappers

  const DefaultDuration := 3000
  const ClickAway := "clickaway"
  const NoProvider := "useNotification must be used within a NotificationProvider"

  /** The alert colours a notification can have. */
  datatype AlertColor = SuccessColor | InfoColor | WarningColor | ErrorColor

  datatype Notification = Notification(message: string, severity: AlertColor, duration: int)

  class NotificationProvider {
    var notification: Option<Notification>
    var open: bool

    constructor()
      ensures notification.None? && !open
    {
      notification := None;
      open := false;
    }

    /** The snackbar is only rendered once there is a notification, and shown while open. */
    predicate Visible()
      reads this
    {
      notification.Some? && open
    }

    /** `showNotification`: the notification replaces any previous one and is shown; an
        omitted severity is `info` and an omitted duration 3000 ms. */
    method ShowNotification(message: string, severity: Option<AlertColor>, duration: Option<int>)
      modifies this
      ensures notification == Some(Notification(message, severity.GetOr(InfoColor), duration.GetOr(DefaultDuration)))
      ensures open && Visible()
    {
      notification := Some(Notification(message, severity.GetOr(InfoColor), duration.GetOr(DefaultDuration)));
      open := true;
    }

    /** `closeNotification`: hidden, but kept. */
    method CloseNotification()
      modifies this
      ensures !open && !Visible()
      ensures notification == old(notification)
    {
      open := false;
    }

    /** `handleClose`: a click away changes nothing; any other reason, or none, hides the
        notification. */
    method HandleClose(reason: Option<string>)
      modifies this
      ensures reason == Some(ClickAway) ==> open == old(open)
      ensures reason != Some(ClickAway) ==> !open
      ensures notification == old(notification)
    {
      if reason == Some(ClickAway) {
        return;
      }
      open := false;
    }
  }

  /** `useNotification`: the provider around the caller, or the error when there is none. */
  function UseNotification(context: Option<NotificationProvider>): (r: Result<NotificationProvider>)
    ensures context.None? <==> r == Failure(NoProvider)
    ensures context.Some? ==> r == Success(context.value)
  {
    if context.None? then Failure(NoProvider) else Success(context.value)
  }

  /** Closing and showing again brings back a notification with the new content. */
  method ShowCloseShow(p: NotificationProvider, first: string, second: string)
    modifies p
    ensures p.Visible() && p.notification.value.message == second
    ensures p.notification.value.severity == InfoColor && p.notification.value.duration == DefaultDuration
  {
    p.ShowNotification(first, Some(ErrorColor), Some(6000));
    p.HandleClose(Some(ClickAway));
    assert p.Visible();
    p.CloseNotification();
    p.ShowNotification(second, None, None);
  }
}
