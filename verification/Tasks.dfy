/** The identifiers of tasks. */
module Tasks {
  datatype TaskId = TaskId(text: string)
}
