/** A client of the service: one task's lifecycle as its owner and a second
    user see it. */
module Scenario {
  import opened Common
  import opened TaskEntity
  import opened TaskDto
  import opened Tasks

  method BuyMilkLifecycle(isDateString: string -> bool, toDate: string -> Date)
  {
    var body := CreateRequest(Value(JString("Buy milk")), Undefined, Undefined, Undefined, Undefined);
    var dto := Validate(body, isDateString);
    assert dto == Ok(CreateTaskDto("Buy milk", Undefined, Undefined, Undefined, Undefined));

    var service := new TasksService(map[]);
    var id := "7d4c2b1e-9a3f-4e6d-8c5b-1f2a3b4c5d6e";
    var created := service.Create(dto.value, "alice", id, 1, toDate);
    assert created.Ok?;
    var task := created.value;
    assert task.priority == Medium && task.status == Pending;
    assert task.description == None && task.dueDate == None;
    assert FindOne(service.tasks, id, "alice") == Ok(task);
    assert FindOne(service.tasks, id, "bob") == Err(NotFound);

    var completed := service.Update(id, UpdateTaskDto(None, Undefined, None, Undefined, Some(Completed)), "alice", toDate);
    assert completed == Ok(task.(status := Completed));

    var denied := service.Remove(id, "bob");
    assert denied == Err(NotFound);
    assert FindOne(service.tasks, id, "alice") == Ok(task.(status := Completed));

    var removed := service.Remove(id, "alice");
    assert removed.Ok?;
    assert FindOne(service.tasks, id, "alice") == Err(NotFound);
  }
}
