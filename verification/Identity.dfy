/** Who a user is, and whether they may sign in. */
module Identity {

  // A uuid is only ever compared, so a number stands for it.
  type UserId = nat

  datatype UserStatus = Active | Blocked | Deleted
}
